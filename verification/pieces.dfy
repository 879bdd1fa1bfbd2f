/** The three board primitives of src/makemove.cpp: `clearPiece`,
    `addPiece` and `movePiece`. Each edits the board, the hash, the counters,
    the pawn bitboards and one piece list in step; `hashPiece` is the toggle
    of the cell key `generate` uses. */
module Pieces {
  import opened Constants
  import opened Bitboard
  import opened ConstantsH
  import opened Ranges
  import opened Zobrist
  import opened Board
  import opened Cells
  import opened Lists
  import opened Steps

  // ---------------------------------------------------------------------
  // clearPiece
  // ---------------------------------------------------------------------

  /** What `clearPiece(sq)` asserts and indexes: an on-board square holding
      a piece that its list records, with a live count to decrement. */
  predicate CanClear(env: Env, pos: Position, sq: nat) {
    && EnvOk(env) && WellFormed(pos) && OnBoard(sq)
    && IsPieceValid(pos.board[sq])
    && sq in pos.pieceList[pos.board[sq]]
    && pos.pieceNum[pos.board[sq]] >= 1
  }

  /** The array bounds `clearPiece` relies on. */
  lemma ClearIndices(env: Env, pos: Position, sq: nat)
    requires CanClear(env, pos, sq)
    ensures sq < LargeNC && pos.board[sq] < 13 && PieceCol[pos.board[sq]] < 2
    ensures |pos.pieceList[pos.board[sq]]| == 10
    ensures 1 <= pos.pieceNum[pos.board[sq]] <= 10
    ensures |pos.pawns| == 3 && |pos.material| == 2
    ensures |pos.bigPiece| == 2 && |pos.majPiece| == 2 && |pos.minPiece| == 2
  {
    ColourOf(pos.board[sq]);
  }

  /** `clearPiece(sq)`. */
  function ClearPiece(env: Env, pos: Position, sq: nat): Position
    requires CanClear(env, pos, sq)
  {
    var p := pos.board[sq];
    ClearIndices(env, pos, sq);
    var col := PieceCol[p];
    var sq64 := Convert120To64(sq);
    var list := pos.pieceList[p];
    var i := FindSlot(list, sq);
    var n := pos.pieceNum[p] - 1;
    pos.(
      posKey := Toggle(pos.posKey, CellKey(env, p, sq)),
      board := pos.board[sq := EMPTY],
      material := Shift(pos.material, col, -PieceVal[p]),
      bigPiece := if PieceBig[p] then Shift(pos.bigPiece, col, -1) else pos.bigPiece,
      majPiece := if PieceBig[p] && PieceMaj[p] then Shift(pos.majPiece, col, -1) else pos.majPiece,
      minPiece := if PieceBig[p] && !PieceMaj[p] then Shift(pos.minPiece, col, -1) else pos.minPiece,
      pawns := if PieceBig[p] then pos.pawns
               else Unmark(pos.pawns, col, sq64),
      pieceList := Place(pos.pieceList, p, i, list[n]),
      pieceNum := pos.pieceNum[p := n])
  }

  /** The board, hash, list and count fields `clearPiece` writes; the
      fields it leaves alone. */
  lemma ClearShape(env: Env, pos: Position, sq: nat)
    requires CanClear(env, pos, sq)
    ensures var r := ClearPiece(env, pos, sq); var p := pos.board[sq]; var n := pos.pieceNum[p];
      && r.board == pos.board[sq := EMPTY]
      && r.posKey == Toggle(pos.posKey, CellKey(env, p, sq))
      && r.pieceNum == pos.pieceNum[p := n - 1]
      && r.pieceList == Place(pos.pieceList, p, FindSlot(pos.pieceList[p], sq), pos.pieceList[p][n - 1])
      && SameRest(pos, r)
      && |r.pawns| == 3 && |r.material| == 2
      && |r.bigPiece| == 2 && |r.majPiece| == 2 && |r.minPiece| == 2
  {
    ClearIndices(env, pos, sq);
  }

  /** What `clearPiece` does to the piece count; the fields it leaves alone. */
  lemma ClearFrame(env: Env, pos: Position, sq: nat)
    requires CanClear(env, pos, sq)
    ensures pos.board[sq] < 13
    ensures 1 <= pos.pieceNum[pos.board[sq]]
    ensures ClearPiece(env, pos, sq).pieceNum == pos.pieceNum[pos.board[sq] := pos.pieceNum[pos.board[sq]] - 1]
    ensures SameRest(pos, ClearPiece(env, pos, sq))
  {
    ClearIndices(env, pos, sq);
  }

  /** `clearPiece` lowers the count of the piece it removes and no other. */
  lemma ClearCount(env: Env, pos: Position, sq: nat, q: nat)
    requires CanClear(env, pos, sq) && q < 13
    ensures ClearPiece(env, pos, sq).pieceNum[q] + (if q == pos.board[sq] then 1 else 0) == pos.pieceNum[q]
  {
    ClearFrame(env, pos, sq);
  }

  /** `clearPiece` takes the piece's weights off its side's counters. */
  lemma ClearCounters(env: Env, pos: Position, sq: nat)
    requires CanClear(env, pos, sq)
    ensures CountersMoved(pos, ClearPiece(env, pos, sq), pos.board[sq], false)
  {
    ClearMaterialBig(env, pos, sq);
    ClearMajorMinor(env, pos, sq);
  }

  lemma ClearMaterialBig(env: Env, pos: Position, sq: nat)
    requires CanClear(env, pos, sq)
    ensures PieceCol[pos.board[sq]] < 2
    ensures var r := ClearPiece(env, pos, sq); var p := pos.board[sq]; var col := PieceCol[p];
      && r.material == Shift(pos.material, col, -PieceVal[p])
      && r.bigPiece == (if PieceBig[p] then Shift(pos.bigPiece, col, -1) else pos.bigPiece)
  {
  }

  lemma ClearMajorMinor(env: Env, pos: Position, sq: nat)
    requires CanClear(env, pos, sq)
    ensures PieceCol[pos.board[sq]] < 2
    ensures var r := ClearPiece(env, pos, sq); var p := pos.board[sq]; var col := PieceCol[p];
      && r.majPiece == (if PieceBig[p] && PieceMaj[p] then Shift(pos.majPiece, col, -1) else pos.majPiece)
      && r.minPiece == (if PieceBig[p] && !PieceMaj[p] then Shift(pos.minPiece, col, -1) else pos.minPiece)
  {
    ClearIndices(env, pos, sq);
  }

  /** `clearPiece` clears the pawn bit of a pawn's square. */
  lemma ClearPawns(env: Env, pos: Position, sq: nat)
    requires CanClear(env, pos, sq)
    ensures PieceCol[pos.board[sq]] < 2 && sq < LargeNC
    ensures ClearPiece(env, pos, sq).pawns ==
      if PieceBig[pos.board[sq]] then pos.pawns
      else Unmark(pos.pawns, PieceCol[pos.board[sq]], Convert120To64(sq))
  {
    ClearIndices(env, pos, sq);
  }

  lemma ClearWellFormed(env: Env, pos: Position, sq: nat)
    requires CanClear(env, pos, sq)
    ensures WellFormed(ClearPiece(env, pos, sq))
  {
    var r := ClearPiece(env, pos, sq);
    var p := pos.board[sq];
    var n := pos.pieceNum[p];
    ClearShape(env, pos, sq);
    ClearIndices(env, pos, sq);
    FramedUpdate(pos.board, sq, EMPTY);
    CountsOkAfter(pos.pieceNum, p, n - 1);
    PlaceOk(pos.pieceList, p, FindSlot(pos.pieceList[p], sq), pos.pieceList[p][n - 1]);
    WellFormedOf(pos, r);
  }

  /** Under `check`, `clearPiece`'s own assertions are all it needs: the
      piece on `sq` is in its list and the list is not empty. */
  lemma CanClearWhenConsistent(env: Env, pos: Position, sq: nat)
    requires EnvOk(env) && Consistent(pos) && OnBoard(sq) && IsPieceValid(pos.board[sq])
    ensures CanClear(env, pos, sq)
  {
    var p := pos.board[sq];
    assert ListMatches(pos, p);
    assert sq in Live(pos, p);
    FindSlotLive(pos.pieceList[p], pos.pieceNum[p], sq);
  }

  /** `clearPiece` on a consistent position: the square is emptied, the
      position stays consistent (lists, counters and pawn bitboards follow
      the board) and a hash that was the from-scratch hash stays so. */
  lemma ClearPieceConsistent(env: Env, pos: Position, sq: nat)
    requires EnvOk(env) && Consistent(pos) && OnBoard(sq) && IsPieceValid(pos.board[sq])
    ensures CanClear(env, pos, sq)
    ensures ClearPiece(env, pos, sq).board == pos.board[sq := EMPTY]
    ensures Consistent(ClearPiece(env, pos, sq))
    ensures pos.posKey == Generate(env, pos) ==>
      ClearPiece(env, pos, sq).posKey == Generate(env, ClearPiece(env, pos, sq))
  {
    CanClearWhenConsistent(env, pos, sq);
    var r := ClearPiece(env, pos, sq);
    ClearShape(env, pos, sq);
    ClearWellFormed(env, pos, sq);
    ClearCountersOk(env, pos, sq);
    ClearPawnsOk(env, pos, sq);
    ListsAfterTake(pos, r, sq);
    if pos.posKey == Generate(env, pos) {
      KeyAfterWrite(env, pos, r, sq, EMPTY);
      ToggleZero(Toggle(Generate(env, pos), CellKey(env, pos.board[sq], sq)));
    }
  }

  lemma ClearCountersOk(env: Env, pos: Position, sq: nat)
    requires CanClear(env, pos, sq) && CountersMatch(pos)
    ensures WellFormed(ClearPiece(env, pos, sq)) && CountersMatch(ClearPiece(env, pos, sq))
  {
    var r := ClearPiece(env, pos, sq);
    ClearShape(env, pos, sq);
    ClearCounters(env, pos, sq);
    ClearWellFormed(env, pos, sq);
    CountersTaken(pos, r, sq);
    CountersAfterWrite(pos, r, sq, EMPTY);
  }

  lemma ClearPawnsOk(env: Env, pos: Position, sq: nat)
    requires CanClear(env, pos, sq) && PawnsMatch(pos)
    ensures WellFormed(ClearPiece(env, pos, sq)) && PawnsMatch(ClearPiece(env, pos, sq))
  {
    var r := ClearPiece(env, pos, sq);
    ClearShape(env, pos, sq);
    ClearPawns(env, pos, sq);
    ClearWellFormed(env, pos, sq);
    PawnsAfterTake(pos, r, sq, pos.board[sq]);
  }

  // ---------------------------------------------------------------------
  // addPiece
  // ---------------------------------------------------------------------

  /** What `addPiece(sq, piece)` asserts and indexes: a valid piece, an
      on-board square and a free slot at the end of the piece's list. */
  predicate CanAdd(env: Env, pos: Position, sq: nat, piece: nat) {
    && EnvOk(env) && WellFormed(pos) && OnBoard(sq)
    && IsPieceValid(piece)
    && pos.pieceNum[piece] < 10
  }

  /** The array bounds `addPiece` relies on. */
  lemma AddIndices(env: Env, pos: Position, sq: nat, piece: nat)
    requires CanAdd(env, pos, sq, piece)
    ensures sq < LargeNC && piece < 13 && PieceCol[piece] < 2
    ensures |pos.pieceList[piece]| == 10
    ensures |pos.pawns| == 3 && |pos.material| == 2
    ensures |pos.bigPiece| == 2 && |pos.majPiece| == 2 && |pos.minPiece| == 2
  {
    ColourOf(piece);
  }

  /** `addPiece(sq, piece)`. */
  function AddPiece(env: Env, pos: Position, sq: nat, piece: nat): Position
    requires CanAdd(env, pos, sq, piece)
  {
    AddIndices(env, pos, sq, piece);
    var col := PieceCol[piece];
    var sq64 := Convert120To64(sq);
    var n: nat := pos.pieceNum[piece];
    pos.(
      posKey := Toggle(pos.posKey, CellKey(env, piece, sq)),
      board := pos.board[sq := piece],
      material := Shift(pos.material, col, PieceVal[piece]),
      bigPiece := if PieceBig[piece] then Shift(pos.bigPiece, col, 1) else pos.bigPiece,
      majPiece := if PieceBig[piece] && PieceMaj[piece] then Shift(pos.majPiece, col, 1) else pos.majPiece,
      minPiece := if PieceBig[piece] && !PieceMaj[piece] then Shift(pos.minPiece, col, 1) else pos.minPiece,
      pawns := if PieceBig[piece] then pos.pawns else Mark(pos.pawns, col, sq64),
      pieceList := Place(pos.pieceList, piece, n, sq),
      pieceNum := pos.pieceNum[piece := n + 1])
  }

  /** The board, hash, list and count fields `addPiece` writes; the fields
      it leaves alone. */
  lemma AddShape(env: Env, pos: Position, sq: nat, piece: nat)
    requires CanAdd(env, pos, sq, piece)
    ensures var r := AddPiece(env, pos, sq, piece); var n := pos.pieceNum[piece];
      && r.board == pos.board[sq := piece]
      && r.posKey == Toggle(pos.posKey, CellKey(env, piece, sq))
      && r.pieceNum == pos.pieceNum[piece := n + 1]
      && r.pieceList == Place(pos.pieceList, piece, n, sq)
      && SameRest(pos, r)
      && |r.pawns| == 3 && |r.material| == 2
      && |r.bigPiece| == 2 && |r.majPiece| == 2 && |r.minPiece| == 2
  {
    AddIndices(env, pos, sq, piece);
  }

  /** What `addPiece` does to the piece count; the fields it leaves alone. */
  lemma AddFrame(env: Env, pos: Position, sq: nat, piece: nat)
    requires CanAdd(env, pos, sq, piece)
    ensures piece < 13
    ensures AddPiece(env, pos, sq, piece).pieceNum == pos.pieceNum[piece := pos.pieceNum[piece] + 1]
    ensures SameRest(pos, AddPiece(env, pos, sq, piece))
  {
    AddIndices(env, pos, sq, piece);
  }

  /** `addPiece` raises the count of the piece it places and no other. */
  lemma AddCount(env: Env, pos: Position, sq: nat, piece: nat, q: nat)
    requires CanAdd(env, pos, sq, piece) && q < 13
    ensures AddPiece(env, pos, sq, piece).pieceNum[q] == pos.pieceNum[q] + (if q == piece then 1 else 0)
  {
    AddFrame(env, pos, sq, piece);
  }

  /** `addPiece` adds the piece's weights to its side's counters. */
  lemma AddCounters(env: Env, pos: Position, sq: nat, piece: nat)
    requires CanAdd(env, pos, sq, piece)
    ensures CountersMoved(pos, AddPiece(env, pos, sq, piece), piece, true)
  {
    AddMaterialBig(env, pos, sq, piece);
    AddMajorMinor(env, pos, sq, piece);
  }

  lemma AddMaterialBig(env: Env, pos: Position, sq: nat, piece: nat)
    requires CanAdd(env, pos, sq, piece)
    ensures PieceCol[piece] < 2
    ensures var r := AddPiece(env, pos, sq, piece); var col := PieceCol[piece];
      && r.material == Shift(pos.material, col, PieceVal[piece])
      && r.bigPiece == (if PieceBig[piece] then Shift(pos.bigPiece, col, 1) else pos.bigPiece)
  {
  }

  lemma AddMajorMinor(env: Env, pos: Position, sq: nat, piece: nat)
    requires CanAdd(env, pos, sq, piece)
    ensures PieceCol[piece] < 2
    ensures var r := AddPiece(env, pos, sq, piece); var col := PieceCol[piece];
      && r.majPiece == (if PieceBig[piece] && PieceMaj[piece] then Shift(pos.majPiece, col, 1) else pos.majPiece)
      && r.minPiece == (if PieceBig[piece] && !PieceMaj[piece] then Shift(pos.minPiece, col, 1) else pos.minPiece)
  {
  }

  /** `addPiece` sets the pawn bit of a pawn's square. */
  lemma AddPawns(env: Env, pos: Position, sq: nat, piece: nat)
    requires CanAdd(env, pos, sq, piece)
    ensures PieceCol[piece] < 2 && sq < LargeNC
    ensures AddPiece(env, pos, sq, piece).pawns ==
      if PieceBig[piece] then pos.pawns else Mark(pos.pawns, PieceCol[piece], Convert120To64(sq))
  {
    AddIndices(env, pos, sq, piece);
  }

  lemma AddWellFormed(env: Env, pos: Position, sq: nat, piece: nat)
    requires CanAdd(env, pos, sq, piece)
    ensures WellFormed(AddPiece(env, pos, sq, piece))
  {
    var r := AddPiece(env, pos, sq, piece);
    var n := pos.pieceNum[piece];
    AddShape(env, pos, sq, piece);
    AddIndices(env, pos, sq, piece);
    FramedUpdate(pos.board, sq, piece);
    CountsOkAfter(pos.pieceNum, piece, n + 1);
    PlaceOk(pos.pieceList, piece, n, sq);
    WellFormedOf(pos, r);
  }

  lemma AddCountersOk(env: Env, pos: Position, sq: nat, piece: nat)
    requires CanAdd(env, pos, sq, piece) && CountersMatch(pos) && pos.board[sq] == EMPTY
    ensures WellFormed(AddPiece(env, pos, sq, piece)) && CountersMatch(AddPiece(env, pos, sq, piece))
  {
    var r := AddPiece(env, pos, sq, piece);
    AddShape(env, pos, sq, piece);
    AddCounters(env, pos, sq, piece);
    AddWellFormed(env, pos, sq, piece);
    CountersPut(pos, r, sq, piece);
    CountersAfterWrite(pos, r, sq, piece);
  }

  lemma AddPawnsOk(env: Env, pos: Position, sq: nat, piece: nat)
    requires CanAdd(env, pos, sq, piece) && PawnsMatch(pos) && pos.board[sq] == EMPTY
    ensures WellFormed(AddPiece(env, pos, sq, piece)) && PawnsMatch(AddPiece(env, pos, sq, piece))
  {
    var r := AddPiece(env, pos, sq, piece);
    AddShape(env, pos, sq, piece);
    AddPawns(env, pos, sq, piece);
    AddWellFormed(env, pos, sq, piece);
    PawnsAfterPut(pos, r, sq, piece);
  }

  /** `addPiece` of a piece with room in its list onto an empty square of a
      consistent position: the square holds the piece, the position stays
      consistent and a from-scratch hash stays so. */
  lemma AddPieceConsistent(env: Env, pos: Position, sq: nat, piece: nat)
    requires EnvOk(env) && Consistent(pos) && OnBoard(sq) && IsPieceValid(piece)
    requires pos.board[sq] == EMPTY && pos.pieceNum[piece] < 10
    ensures CanAdd(env, pos, sq, piece)
    ensures AddPiece(env, pos, sq, piece).board == pos.board[sq := piece]
    ensures Consistent(AddPiece(env, pos, sq, piece))
    ensures pos.posKey == Generate(env, pos) ==>
      AddPiece(env, pos, sq, piece).posKey == Generate(env, AddPiece(env, pos, sq, piece))
  {
    var r := AddPiece(env, pos, sq, piece);
    AddShape(env, pos, sq, piece);
    AddWellFormed(env, pos, sq, piece);
    AddCountersOk(env, pos, sq, piece);
    AddPawnsOk(env, pos, sq, piece);
    ListsAfterPut(pos, r, sq, piece);
    if pos.posKey == Generate(env, pos) {
      KeyAfterWrite(env, pos, r, sq, piece);
      ToggleZero(Generate(env, pos));
    }
  }

  // ---------------------------------------------------------------------
  // movePiece
  // ---------------------------------------------------------------------

  /** What `movePiece(from, to)` asserts and indexes: two on-board squares,
      the first holding a piece its list records. */
  predicate CanMove(env: Env, pos: Position, from: nat, to: nat) {
    && EnvOk(env) && WellFormed(pos) && OnBoard(from) && OnBoard(to)
    && IsPieceValid(pos.board[from])
    && from in pos.pieceList[pos.board[from]]
  }

  /** The array bounds `movePiece` relies on. */
  lemma MoveIndices(env: Env, pos: Position, from: nat, to: nat)
    requires CanMove(env, pos, from, to)
    ensures from < LargeNC && to < LargeNC
    ensures pos.board[from] < 13 && PieceCol[pos.board[from]] < 2
    ensures |pos.pieceList[pos.board[from]]| == 10
    ensures |pos.pawns| == 3
  {
    ColourOf(pos.board[from]);
  }

  /** The pawn bitboards with bit `k` moved to bit `k'`. */
  function Shuffle(pawns: seq<bv64>, c: nat, k: nat, k': nat): (r: seq<bv64>)
    requires |pawns| == 3 && c < 2 && k < 64 && k' < 64
    ensures |r| == 3
  {
    Mark(Unmark(pawns, c, k), c, k')
  }

  /** `movePiece(from, to)`: the piece on `from` goes to `to`, overwriting
      whatever `to` held, and its list slot is renamed in place. */
  function MovePiece(env: Env, pos: Position, from: nat, to: nat): Position
    requires CanMove(env, pos, from, to)
  {
    MoveIndices(env, pos, from, to);
    var p := pos.board[from];
    var col := PieceCol[p];
    var list := pos.pieceList[p];
    var i := FindSlot(list, from);
    pos.(
      posKey := Toggle(Toggle(pos.posKey, CellKey(env, p, from)), CellKey(env, p, to)),
      board := pos.board[from := EMPTY][to := p],
      pawns := if PieceBig[p] then pos.pawns
               else Shuffle(pos.pawns, col, Convert120To64(from), Convert120To64(to)),
      pieceList := Place(pos.pieceList, p, i, to))
  }

  /** The board, hash and list fields `movePiece` writes; the fields it
      leaves alone. */
  lemma MoveShape(env: Env, pos: Position, from: nat, to: nat)
    requires CanMove(env, pos, from, to)
    ensures var r := MovePiece(env, pos, from, to); var p := pos.board[from];
      && r.board == pos.board[from := EMPTY][to := p]
      && r.posKey == Toggle(Toggle(pos.posKey, CellKey(env, p, from)), CellKey(env, p, to))
      && r.pieceList == Place(pos.pieceList, p, FindSlot(pos.pieceList[p], from), to)
      && r.pieceNum == pos.pieceNum
      && r.material == pos.material && r.bigPiece == pos.bigPiece
      && r.majPiece == pos.majPiece && r.minPiece == pos.minPiece
      && SameRest(pos, r) && |r.pawns| == 3
  {
    MoveIndices(env, pos, from, to);
  }

  /** `movePiece` keeps the piece counts and the fields it does not write. */
  lemma MoveFrame(env: Env, pos: Position, from: nat, to: nat)
    requires CanMove(env, pos, from, to)
    ensures MovePiece(env, pos, from, to).pieceNum == pos.pieceNum
    ensures SameRest(pos, MovePiece(env, pos, from, to))
  {
    MoveIndices(env, pos, from, to);
  }

  /** `movePiece` moves a pawn's bit from `from` to `to`. */
  lemma MovePawns(env: Env, pos: Position, from: nat, to: nat)
    requires CanMove(env, pos, from, to)
    ensures PieceCol[pos.board[from]] < 2 && from < LargeNC && to < LargeNC
    ensures MovePiece(env, pos, from, to).pawns ==
      if PieceBig[pos.board[from]] then pos.pawns
      else Mark(Unmark(pos.pawns, PieceCol[pos.board[from]], Convert120To64(from)),
                PieceCol[pos.board[from]], Convert120To64(to))
  {
    MoveIndices(env, pos, from, to);
  }

  lemma CanMoveWhenConsistent(env: Env, pos: Position, from: nat, to: nat)
    requires EnvOk(env) && Consistent(pos) && OnBoard(from) && OnBoard(to)
    requires IsPieceValid(pos.board[from])
    ensures CanMove(env, pos, from, to)
  {
    CanClearWhenConsistent(env, pos, from);
  }

  /** The position halfway through a move: `from` emptied, nothing else. */
  function Lifted(pos: Position, from: nat): (mid: Position)
    requires WellFormed(pos) && OnBoard(from)
    ensures WellFormed(mid) && mid.board == pos.board[from := EMPTY]
    ensures mid.side == pos.side && mid.enPas == pos.enPas && mid.castlePerm == pos.castlePerm
  {
    FramedUpdate(pos.board, from, EMPTY);
    var mid := pos.(board := pos.board[from := EMPTY]);
    WellFormedOf(pos, mid);
    mid
  }

  lemma MoveWellFormed(env: Env, pos: Position, from: nat, to: nat)
    requires CanMove(env, pos, from, to)
    ensures WellFormed(MovePiece(env, pos, from, to))
  {
    var r := MovePiece(env, pos, from, to);
    var p := pos.board[from];
    MoveShape(env, pos, from, to);
    MoveIndices(env, pos, from, to);
    FramedUpdate(pos.board, from, EMPTY);
    FramedUpdate(pos.board[from := EMPTY], to, p);
    PlaceOk(pos.pieceList, p, FindSlot(pos.pieceList[p], from), to);
    WellFormedOf(pos, r);
  }

  lemma MovePawnsOk(env: Env, pos: Position, from: nat, to: nat)
    requires CanMove(env, pos, from, to) && PawnsMatch(pos) && pos.board[to] == EMPTY
    requires pos.pieceNum[pos.board[from]] >= 1
    ensures WellFormed(MovePiece(env, pos, from, to)) && PawnsMatch(MovePiece(env, pos, from, to))
  {
    var r := MovePiece(env, pos, from, to);
    MoveShape(env, pos, from, to);
    MovePawns(env, pos, from, to);
    MoveWellFormed(env, pos, from, to);
    PawnsAfterShift(pos, r, from, to, pos.board[from]);
  }

  /** `movePiece` onto an empty square of a consistent position: the piece
      changes square, the position stays consistent and a from-scratch hash
      stays so. */
  lemma MovePieceConsistent(env: Env, pos: Position, from: nat, to: nat)
    requires EnvOk(env) && Consistent(pos) && OnBoard(from) && OnBoard(to)
    requires IsPieceValid(pos.board[from]) && pos.board[to] == EMPTY
    ensures CanMove(env, pos, from, to)
    ensures MovePiece(env, pos, from, to).board == pos.board[from := EMPTY][to := pos.board[from]]
    ensures Consistent(MovePiece(env, pos, from, to))
    ensures pos.posKey == Generate(env, pos) ==>
      MovePiece(env, pos, from, to).posKey == Generate(env, MovePiece(env, pos, from, to))
  {
    CanMoveWhenConsistent(env, pos, from, to);
    CanClearWhenConsistent(env, pos, from);
    var r := MovePiece(env, pos, from, to);
    MoveShape(env, pos, from, to);
    MoveWellFormed(env, pos, from, to);
    CountersAfterMove(pos, r, from, to);
    MovePawnsOk(env, pos, from, to);
    ListsAfterRename(pos, r, from, to);
    if pos.posKey == Generate(env, pos) {
      MoveKey(env, pos, r, from, to);
    }
  }

  /** The hash of a position after a piece moves to an empty square: the
      from-scratch hash with the piece's key taken off `from` and put on `to`. */
  lemma MoveKey(env: Env, pos: Position, r: Position, from: nat, to: nat)
    requires EnvOk(env) && WellFormed(pos) && WellFormed(r) && OnBoard(from) && OnBoard(to)
    requires pos.board[to] == EMPTY && from != to
    requires r.board == pos.board[from := EMPTY][to := pos.board[from]]
    requires r.side == pos.side && r.enPas == pos.enPas && r.castlePerm == pos.castlePerm
    ensures Generate(env, r) ==
      Toggle(Toggle(Generate(env, pos), CellKey(env, pos.board[from], from)), CellKey(env, pos.board[from], to))
  {
    var mid := Lifted(pos, from);
    KeyAfterWrite(env, pos, mid, from, EMPTY);
    KeyAfterWrite(env, mid, r, to, pos.board[from]);
    ToggleZero(Toggle(Generate(env, pos), CellKey(env, pos.board[from], from)));
    ToggleZero(Generate(env, mid));
  }

  // ---------------------------------------------------------------------
  // Round trips
  // ---------------------------------------------------------------------

  /** `addPiece` then `clearPiece` on an empty square of a consistent
      position gives the position back, except that the slot just past the
      piece's count, which no reader looks at, keeps the square. */
  lemma AddThenClear(env: Env, pos: Position, sq: nat, piece: nat)
    requires EnvOk(env) && Consistent(pos) && OnBoard(sq) && IsPieceValid(piece)
    requires pos.board[sq] == EMPTY && pos.pieceNum[piece] < 10
    ensures CanAdd(env, pos, sq, piece) && CanClear(env, AddPiece(env, pos, sq, piece), sq)
    ensures ClearPiece(env, AddPiece(env, pos, sq, piece), sq)
         == pos.(pieceList := Place(pos.pieceList, piece, pos.pieceNum[piece], sq))
  {
    AddThenClearCan(env, pos, sq, piece);
    AddThenClearShape(env, pos, sq, piece);
    AddThenClearCounters(env, pos, sq, piece);
    AddThenClearPawns(env, pos, sq, piece);
    AddThenClearLists(env, pos, sq, piece);
    SameFields(ClearPiece(env, AddPiece(env, pos, sq, piece), sq),
               pos.(pieceList := Place(pos.pieceList, piece, pos.pieceNum[piece], sq)));
  }

  lemma AddThenClearCan(env: Env, pos: Position, sq: nat, piece: nat)
    requires EnvOk(env) && Consistent(pos) && OnBoard(sq) && IsPieceValid(piece)
    requires pos.board[sq] == EMPTY && pos.pieceNum[piece] < 10
    ensures CanAdd(env, pos, sq, piece) && CanClear(env, AddPiece(env, pos, sq, piece), sq)
  {
    AddPieceConsistent(env, pos, sq, piece);
    AddShape(env, pos, sq, piece);
    CanClearWhenConsistent(env, AddPiece(env, pos, sq, piece), sq);
  }

  lemma AddThenClearShape(env: Env, pos: Position, sq: nat, piece: nat)
    requires CanAdd(env, pos, sq, piece) && CanClear(env, AddPiece(env, pos, sq, piece), sq)
    requires pos.board[sq] == EMPTY
    ensures var r2 := ClearPiece(env, AddPiece(env, pos, sq, piece), sq);
      && r2.board == pos.board && r2.posKey == pos.posKey && SameRest(pos, r2)
  {
    var r := AddPiece(env, pos, sq, piece);
    AddShape(env, pos, sq, piece);
    ClearShape(env, r, sq);
    ToggleTwice(pos.posKey, CellKey(env, piece, sq));
    WriteBack(pos.board, sq, piece);
  }

  lemma AddThenClearCounters(env: Env, pos: Position, sq: nat, piece: nat)
    requires EnvOk(env) && Consistent(pos) && OnBoard(sq) && IsPieceValid(piece)
    requires pos.board[sq] == EMPTY && pos.pieceNum[piece] < 10
    requires CanClear(env, AddPiece(env, pos, sq, piece), sq)
    ensures var r2 := ClearPiece(env, AddPiece(env, pos, sq, piece), sq);
      && r2.material == pos.material && r2.bigPiece == pos.bigPiece
      && r2.majPiece == pos.majPiece && r2.minPiece == pos.minPiece
  {
    var r := AddPiece(env, pos, sq, piece);
    AddShape(env, pos, sq, piece);
    AddWellFormed(env, pos, sq, piece);
    AddCounters(env, pos, sq, piece);
    ClearCounters(env, r, sq);
    CountersBack(pos, r, ClearPiece(env, r, sq), piece);
  }

  lemma AddThenClearPawns(env: Env, pos: Position, sq: nat, piece: nat)
    requires EnvOk(env) && Consistent(pos) && OnBoard(sq) && IsPieceValid(piece)
    requires pos.board[sq] == EMPTY && pos.pieceNum[piece] < 10
    requires CanClear(env, AddPiece(env, pos, sq, piece), sq)
    ensures ClearPiece(env, AddPiece(env, pos, sq, piece), sq).pawns == pos.pawns
  {
    var r := AddPiece(env, pos, sq, piece);
    AddShape(env, pos, sq, piece);
    AddPawns(env, pos, sq, piece);
    ClearPawns(env, r, sq);
    PawnsAddBack(pos, r, ClearPiece(env, r, sq), sq, piece);
  }

  lemma AddThenClearLists(env: Env, pos: Position, sq: nat, piece: nat)
    requires EnvOk(env) && Consistent(pos) && OnBoard(sq) && IsPieceValid(piece)
    requires pos.board[sq] == EMPTY && pos.pieceNum[piece] < 10
    requires CanClear(env, AddPiece(env, pos, sq, piece), sq)
    ensures var r2 := ClearPiece(env, AddPiece(env, pos, sq, piece), sq);
      && r2.pieceNum == pos.pieceNum
      && r2.pieceList == Place(pos.pieceList, piece, pos.pieceNum[piece], sq)
  {
    var r := AddPiece(env, pos, sq, piece);
    AddShape(env, pos, sq, piece);
    AddWellFormed(env, pos, sq, piece);
    ClearShape(env, r, sq);
    assert ListMatches(pos, piece);
    ListsAddBack(pos, r, ClearPiece(env, r, sq), sq, piece);
  }

  /** `movePiece(from, to)` then `movePiece(to, from)`, onto an empty square
      of a consistent position, gives the position back exactly, list slots
      included: the way `takeBackMove` undoes a quiet move. */
  lemma MoveThereAndBack(env: Env, pos: Position, from: nat, to: nat)
    requires EnvOk(env) && Consistent(pos) && OnBoard(from) && OnBoard(to)
    requires IsPieceValid(pos.board[from]) && pos.board[to] == EMPTY
    ensures CanMove(env, pos, from, to) && CanMove(env, MovePiece(env, pos, from, to), to, from)
    ensures MovePiece(env, MovePiece(env, pos, from, to), to, from) == pos
  {
    MoveBackCan(env, pos, from, to);
    MoveBackShape(env, pos, from, to);
    MoveBackPawns(env, pos, from, to);
    MoveBackLists(env, pos, from, to);
    SameFields(MovePiece(env, MovePiece(env, pos, from, to), to, from), pos);
  }

  lemma MoveBackCan(env: Env, pos: Position, from: nat, to: nat)
    requires EnvOk(env) && Consistent(pos) && OnBoard(from) && OnBoard(to)
    requires IsPieceValid(pos.board[from]) && pos.board[to] == EMPTY
    ensures CanMove(env, pos, from, to) && CanMove(env, MovePiece(env, pos, from, to), to, from)
  {
    MovePieceConsistent(env, pos, from, to);
    MoveShape(env, pos, from, to);
    CanMoveWhenConsistent(env, MovePiece(env, pos, from, to), to, from);
  }

  lemma MoveBackShape(env: Env, pos: Position, from: nat, to: nat)
    requires CanMove(env, pos, from, to) && CanMove(env, MovePiece(env, pos, from, to), to, from)
    requires pos.board[to] == EMPTY
    ensures var r2 := MovePiece(env, MovePiece(env, pos, from, to), to, from);
      && r2.board == pos.board && r2.posKey == pos.posKey && r2.pieceNum == pos.pieceNum
      && r2.material == pos.material && r2.bigPiece == pos.bigPiece
      && r2.majPiece == pos.majPiece && r2.minPiece == pos.minPiece
      && SameRest(pos, r2)
  {
    var p := pos.board[from];
    var r := MovePiece(env, pos, from, to);
    MoveShape(env, pos, from, to);
    MoveShape(env, r, to, from);
    ToggleTwice(Toggle(pos.posKey, CellKey(env, p, from)), CellKey(env, p, to));
    ToggleTwice(pos.posKey, CellKey(env, p, from));
    MoveCellBack(pos.board, from, to);
  }

  lemma MoveBackPawns(env: Env, pos: Position, from: nat, to: nat)
    requires EnvOk(env) && Consistent(pos) && OnBoard(from) && OnBoard(to)
    requires IsPieceValid(pos.board[from]) && pos.board[to] == EMPTY
    requires CanMove(env, pos, from, to) && CanMove(env, MovePiece(env, pos, from, to), to, from)
    ensures MovePiece(env, MovePiece(env, pos, from, to), to, from).pawns == pos.pawns
  {
    var r := MovePiece(env, pos, from, to);
    MoveShape(env, pos, from, to);
    MovePawns(env, pos, from, to);
    MovePawns(env, r, to, from);
    PawnsMoveBack(pos, r, MovePiece(env, r, to, from), from, to, pos.board[from]);
  }

  lemma MoveBackLists(env: Env, pos: Position, from: nat, to: nat)
    requires EnvOk(env) && Consistent(pos) && OnBoard(from) && OnBoard(to)
    requires IsPieceValid(pos.board[from]) && pos.board[to] == EMPTY
    requires CanMove(env, pos, from, to) && CanMove(env, MovePiece(env, pos, from, to), to, from)
    ensures MovePiece(env, MovePiece(env, pos, from, to), to, from).pieceList == pos.pieceList
  {
    var p := pos.board[from];
    var r := MovePiece(env, pos, from, to);
    MoveShape(env, pos, from, to);
    MoveShape(env, r, to, from);
    assert ListMatches(pos, p);
    ListsMoveBack(pos, r, MovePiece(env, r, to, from), from, to, p);
  }
}
