/** What one write to a board cell does to the fields `check` derives from the
    board: the counters move by the weights of the old and the new content,
    the pawn bitboards follow the pawns, lists of other pieces keep matching
    and the key toggles the two cell keys. The primitives of
    src/makemove.cpp are sequences of such writes. */
module Cells {
  import opened Constants
  import opened Bitboard
  import opened ConstantsH
  import opened Zobrist
  import opened Board

  // ---------------------------------------------------------------------
  // Counters
  // ---------------------------------------------------------------------

  /** The counters of `r` are those of `pos` shifted by the weight of `v`
      less the weight of the content of `sq`. */
  predicate CountersShifted(pos: Position, r: Position, sq: nat, v: nat)
    requires WellFormed(pos) && WellFormed(r) && sq < LargeNC
  {
    var u := pos.board[sq];
    forall c :: 0 <= c < 2 ==>
      && r.material[c] == pos.material[c] + MaterialW(c)(v) - MaterialW(c)(u)
      && r.bigPiece[c] == pos.bigPiece[c] + BigW(c)(v) - BigW(c)(u)
      && r.majPiece[c] == pos.majPiece[c] + MajW(c)(v) - MajW(c)(u)
      && r.minPiece[c] == pos.minPiece[c] + MinW(c)(v) - MinW(c)(u)
  }

  lemma CountersAfterWrite(pos: Position, r: Position, sq: nat, v: nat)
    requires WellFormed(pos) && WellFormed(r) && sq < LargeNC
    requires r.board == pos.board[sq := v]
    requires CountersMatch(pos) && CountersShifted(pos, r, sq, v)
    ensures CountersMatch(r)
  {
    forall c | 0 <= c < 2
      ensures r.material[c] == Tally(r.board, LargeNC, MaterialW(c))
      ensures r.bigPiece[c] == Tally(r.board, LargeNC, BigW(c))
      ensures r.majPiece[c] == Tally(r.board, LargeNC, MajW(c))
      ensures r.minPiece[c] == Tally(r.board, LargeNC, MinW(c))
    {
      TallyUpdate(pos.board, LargeNC, MaterialW(c), sq, v);
      TallyUpdate(pos.board, LargeNC, BigW(c), sq, v);
      TallyUpdate(pos.board, LargeNC, MajW(c), sq, v);
      TallyUpdate(pos.board, LargeNC, MinW(c), sq, v);
    }
  }

  /** The weights of a piece: its value and one big, major or minor piece for
      its colour, as `clearPiece` and `addPiece` move them. */
  lemma PieceWeights(p: nat, c: nat)
    requires wP <= p <= bK && c < 2
    ensures MaterialW(c)(p) == (if PieceCol[p] == c then PieceVal[p] else 0)
    ensures BigW(c)(p) == (if PieceCol[p] == c && PieceBig[p] then 1 else 0)
    ensures MajW(c)(p) == (if PieceCol[p] == c && PieceBig[p] && PieceMaj[p] then 1 else 0)
    ensures MinW(c)(p) == (if PieceCol[p] == c && PieceBig[p] && !PieceMaj[p] then 1 else 0)
    ensures PieceCol[p] < 2
  {
    PieceTablesAgree(p);
  }

  lemma EmptyWeights(c: nat)
    ensures MaterialW(c)(EMPTY) == 0 && BigW(c)(EMPTY) == 0
    ensures MajW(c)(EMPTY) == 0 && MinW(c)(EMPTY) == 0
  {
  }

  // ---------------------------------------------------------------------
  // Pawn bitboards
  // ---------------------------------------------------------------------

  /** A bitboard that agrees with a matching one off square `sq` and marks
      `sq` exactly when `v` is one of the marked pieces matches the board
      after `v` is written at `sq`. */
  lemma PawnBitsAfterWrite(bb: bv64, bb': bv64, board: seq<nat>, sq: nat, v: nat, a: nat, b: nat)
    requires |board| == LargeNC && OnBoard(sq)
    requires PawnBitsMatch(bb, board, a, b)
    requires forall j :: 0 <= j < RegularNC && j != Convert120To64(sq) ==> (IsSet(bb', j) <==> IsSet(bb, j))
    requires IsSet(bb', Convert120To64(sq)) <==> v == a || v == b
    ensures PawnBitsMatch(bb', board[sq := v], a, b)
  {
    var k := Convert120To64(sq);
    forall j | 0 <= j < RegularNC
      ensures IsSet(bb', j) <==> board[sq := v][Convert64To120(j)] == a || board[sq := v][Convert64To120(j)] == b
    {
      if j != k {
        ConversionsInverse(j, sq);
        assert Convert64To120(j) != sq;
      }
    }
  }

  /** Clearing the bit of `sq` when `v` is not marked. */
  lemma PawnBitsClear(bb: bv64, board: seq<nat>, sq: nat, v: nat, a: nat, b: nat)
    requires |board| == LargeNC && OnBoard(sq) && v != a && v != b
    requires PawnBitsMatch(bb, board, a, b)
    ensures PawnBitsMatch(ClearBit(bb, Convert120To64(sq)), board[sq := v], a, b)
  {
    var k := Convert120To64(sq);
    forall j | 0 <= j < RegularNC {
      ClearBitBits(bb, k, j);
    }
    PawnBitsAfterWrite(bb, ClearBit(bb, k), board, sq, v, a, b);
  }

  /** Setting the bit of `sq` when `v` is marked. */
  lemma PawnBitsSet(bb: bv64, board: seq<nat>, sq: nat, v: nat, a: nat, b: nat)
    requires |board| == LargeNC && OnBoard(sq) && (v == a || v == b)
    requires PawnBitsMatch(bb, board, a, b)
    ensures PawnBitsMatch(SetBit(bb, Convert120To64(sq)), board[sq := v], a, b)
  {
    var k := Convert120To64(sq);
    forall j | 0 <= j < RegularNC {
      SetBitBits(bb, k, j);
    }
    PawnBitsAfterWrite(bb, SetBit(bb, k), board, sq, v, a, b);
  }

  /** A write that neither removes nor adds a marked piece keeps the bitboard. */
  lemma PawnBitsKeep(bb: bv64, board: seq<nat>, sq: nat, v: nat, a: nat, b: nat)
    requires |board| == LargeNC && OnBoard(sq)
    requires board[sq] != a && board[sq] != b && v != a && v != b
    requires PawnBitsMatch(bb, board, a, b)
    ensures PawnBitsMatch(bb, board[sq := v], a, b)
  {
    var k := Convert120To64(sq);
    assert !IsSet(bb, k);
    PawnBitsAfterWrite(bb, bb, board, sq, v, a, b);
  }

  /** A marked square's bit is set, an unmarked one's is clear. */
  lemma PawnBitAt(bb: bv64, board: seq<nat>, sq: nat, a: nat, b: nat)
    requires |board| == LargeNC && OnBoard(sq)
    requires PawnBitsMatch(bb, board, a, b)
    ensures IsSet(bb, Convert120To64(sq)) <==> board[sq] == a || board[sq] == b
  {
  }

  // ---------------------------------------------------------------------
  // Lists of the other pieces
  // ---------------------------------------------------------------------

  /** A write that neither removes nor adds a `q` keeps `q`'s list matching. */
  lemma ListAfterOtherWrite(pos: Position, r: Position, q: nat, sq: nat, v: nat)
    requires WellFormed(pos) && WellFormed(r) && q < 13 && sq < LargeNC
    requires r.board == pos.board[sq := v] && pos.board[sq] != q && v != q
    requires r.pieceList[q] == pos.pieceList[q] && r.pieceNum[q] == pos.pieceNum[q]
    requires ListMatches(pos, q)
    ensures ListMatches(r, q)
  {
    TallyUpdate(pos.board, LargeNC, CountW(q), sq, v);
    assert Live(r, q) == Live(pos, q);
    forall i | 0 <= i < r.pieceNum[q]
      ensures r.board[r.pieceList[q][i]] == q
    {
      assert pos.board[pos.pieceList[q][i]] == q;
    }
  }

  // ---------------------------------------------------------------------
  // Key
  // ---------------------------------------------------------------------

  /** Writing `v` at `sq` toggles the from-scratch key by the keys of the old
      and the new content. */
  lemma KeyAfterWrite(env: Env, pos: Position, r: Position, sq: nat, v: nat)
    requires EnvOk(env) && WellFormed(pos) && WellFormed(r) && sq < LargeNC
    requires r.board == pos.board[sq := v]
    requires r.side == pos.side && r.enPas == pos.enPas && r.castlePerm == pos.castlePerm
    ensures Generate(env, r)
      == Toggle(Toggle(Generate(env, pos), CellKey(env, pos.board[sq], sq)), CellKey(env, v, sq))
  {
    var b := BoardKey(env, pos.board, LargeNC);
    var w, n := CellKey(env, pos.board[sq], sq), CellKey(env, v, sq);
    var s, e, c := SideKey(env, pos.side), EnPasKey(env, pos.enPas), CastleKey(env, pos.castlePerm);
    BoardKeyUpdate(env, pos.board, LargeNC, sq, v);
    ToggleLast(Toggle(b, w), n, s, e, c);
    ToggleLast(b, w, s, e, c);
  }
}
