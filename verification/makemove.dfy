/** `makeMove` and `takeBackMove` of src/makemove.cpp on whole positions: the
    history record, the special rook and en-passant writes, the castling and
    en-passant bookkeeping with their hash keys, the fifty-move counter, the
    piece move with promotion, the king squares and the side to move; the
    legality test that takes back a move leaving the mover's king attacked. */
module MakeMove {
  import opened Constants
  import opened Ranges
  import opened Moves
  import opened Zobrist
  import opened Bitboard
  import opened Board
  import opened Steps
  import opened Pieces
  import opened MoveBoard
  import opened Counting
  import Attack

  // ---------------------------------------------------------------------
  // Positions whose hash is the from-scratch hash
  // ---------------------------------------------------------------------

  /** The board-derived fields agree with the board and the incremental hash
      is the one `generate` computes. */
  predicate Hashed(env: Env, pos: Position) {
    EnvOk(env) && Consistent(pos) && pos.posKey == Generate(env, pos)
  }

  /** `r` differs from `pos` at most in scalar fields and the history. */
  predicate SameMaterial(pos: Position, r: Position) {
    && r.board == pos.board && r.pawns == pos.pawns
    && r.pieceNum == pos.pieceNum && r.pieceList == pos.pieceList
    && r.material == pos.material && r.bigPiece == pos.bigPiece
    && r.majPiece == pos.majPiece && r.minPiece == pos.minPiece
  }

  /** Changing only scalar fields keeps a consistent position consistent. */
  lemma RekeyConsistent(pos: Position, r: Position)
    requires Consistent(pos) && SameMaterial(pos, r)
    requires |r.kings| == 2 && r.kings[WHITE] < LargeNC && r.kings[BLACK] < LargeNC
    requires r.enPas < LargeNC && r.fiftyMove < 256 && r.castlePerm <= 15
    ensures Consistent(r)
  {
    assert WellFormed(r);
    forall p | wP <= p <= bK
      ensures ListMatches(r, p)
    {
      assert ListMatches(pos, p);
    }
    assert PawnsMatch(pos);
    assert CountersMatch(pos);
  }

  /** A new castling-rights value moves the from-scratch hash by the keys of
      the old and the new rights. */
  lemma GenerateCastle(env: Env, pos: Position, r: Position)
    requires EnvOk(env) && WellFormed(pos) && WellFormed(r)
    requires r.board == pos.board && r.side == pos.side && r.enPas == pos.enPas
    ensures Generate(env, r) ==
      Toggle(Toggle(Generate(env, pos), CastleKey(env, pos.castlePerm)), CastleKey(env, r.castlePerm))
  {
    var y := Toggle(Toggle(BoardKey(env, pos.board, LargeNC), SideKey(env, pos.side)), EnPasKey(env, pos.enPas));
    ToggleTwice(y, CastleKey(env, pos.castlePerm));
  }

  /** A new en-passant square moves the from-scratch hash by the keys of the
      old and the new square. */
  lemma GenerateEnPas(env: Env, pos: Position, r: Position)
    requires EnvOk(env) && WellFormed(pos) && WellFormed(r)
    requires r.board == pos.board && r.side == pos.side && r.castlePerm == pos.castlePerm
    ensures Generate(env, r) ==
      Toggle(Toggle(Generate(env, pos), EnPasKey(env, pos.enPas)), EnPasKey(env, r.enPas))
  {
    var z := Toggle(BoardKey(env, pos.board, LargeNC), SideKey(env, pos.side));
    var ep, er, c := EnPasKey(env, pos.enPas), EnPasKey(env, r.enPas), CastleKey(env, pos.castlePerm);
    ToggleSwap(Toggle(z, ep), c, ep);
    ToggleTwice(z, ep);
    ToggleSwap(z, c, er);
  }

  /** Handing the move to the other colour moves the from-scratch hash by the
      side key. */
  lemma GenerateSide(env: Env, pos: Position, r: Position)
    requires EnvOk(env) && WellFormed(pos) && WellFormed(r) && IsSideValid(pos.side)
    requires r.board == pos.board && r.side == Other(pos.side)
    requires r.enPas == pos.enPas && r.castlePerm == pos.castlePerm
    ensures Generate(env, r) == Toggle(Generate(env, pos), env.sideKey)
  {
    var b := BoardKey(env, pos.board, LargeNC);
    var e, c := EnPasKey(env, pos.enPas), CastleKey(env, pos.castlePerm);
    ToggleZero(b);
    if pos.side == WHITE {
      ToggleToEnd(b, env.sideKey, e, c);
      ToggleTwice(Toggle(Toggle(b, e), c), env.sideKey);
    } else {
      ToggleToEnd(b, env.sideKey, e, c);
    }
  }

  /** A key folded in under two others can be folded in last instead. */
  lemma ToggleToEnd(key: bv64, w: bv64, e: bv64, c: bv64)
    ensures Toggle(Toggle(Toggle(key, w), e), c) == Toggle(Toggle(Toggle(key, e), c), w)
  {
    ToggleSwap(key, w, e);
    ToggleSwap(Toggle(key, e), w, c);
  }

  /** Two positions on the same board with the same side, en-passant square
      and castling rights have the same from-scratch hash. */
  lemma GenerateDepends(env: Env, pos: Position, r: Position)
    requires EnvOk(env) && WellFormed(pos) && WellFormed(r)
    requires r.board == pos.board && r.side == pos.side
    requires r.enPas == pos.enPas && r.castlePerm == pos.castlePerm
    ensures Generate(env, r) == Generate(env, pos)
  {
  }

  /** The board determines the piece counts, the pawn bitboards and the
      material counters of a consistent position, and which squares the live
      lists hold. `pieceNum[EMPTY]` is not derived from the board. */
  lemma Determined(pos: Position, r: Position)
    requires Consistent(pos) && Consistent(r) && r.board == pos.board
    ensures forall p :: wP <= p <= bK ==> r.pieceNum[p] == pos.pieceNum[p]
    ensures r.pawns == pos.pawns
    ensures r.material == pos.material && r.bigPiece == pos.bigPiece
    ensures r.majPiece == pos.majPiece && r.minPiece == pos.minPiece
    ensures forall p, sq :: wP <= p <= bK && 0 <= sq < LargeNC ==>
      (sq in Live(r, p) <==> sq in Live(pos, p))
  {
    CountsDetermined(pos, r);
    PawnsMatchParts(pos);
    PawnsMatchParts(r);
    PawnsDetermined(r.pawns, pos.pawns, pos.board);
    CountersDetermined(pos, r);
    LiveDetermined(pos, r);
  }

  lemma CountsDetermined(pos: Position, r: Position)
    requires WellFormed(pos) && WellFormed(r) && r.board == pos.board
    requires ListsMatch(pos) && ListsMatch(r)
    ensures forall p :: wP <= p <= bK ==> r.pieceNum[p] == pos.pieceNum[p]
  {
    forall p | wP <= p <= bK
      ensures r.pieceNum[p] == pos.pieceNum[p]
    {
      CountDetermined(pos, r, p);
    }
  }

  lemma LiveDetermined(pos: Position, r: Position)
    requires WellFormed(pos) && WellFormed(r) && r.board == pos.board
    requires ListsMatch(pos) && ListsMatch(r)
    ensures forall p, sq :: wP <= p <= bK && 0 <= sq < LargeNC ==>
      (sq in Live(r, p) <==> sq in Live(pos, p))
  {
    forall p, sq | wP <= p <= bK && 0 <= sq < LargeNC
      ensures sq in Live(r, p) <==> sq in Live(pos, p)
    {
      LiveIffHolds(pos, p, sq);
      LiveIffHolds(r, p, sq);
    }
  }

  lemma CountDetermined(pos: Position, r: Position, p: nat)
    requires WellFormed(pos) && WellFormed(r) && r.board == pos.board && wP <= p <= bK
    requires ListMatches(pos, p) && ListMatches(r, p)
    ensures r.pieceNum[p] == pos.pieceNum[p]
  {
  }

  lemma PawnsDetermined(pawns: seq<bv64>, pawns': seq<bv64>, board: seq<nat>)
    requires |pawns| == 3 && |pawns'| == 3 && |board| == LargeNC
    requires PawnBoards(pawns, board) && PawnBoards(pawns', board)
    ensures pawns == pawns'
  {
    BitboardDetermined(pawns[WHITE], pawns'[WHITE], board, wP, wP);
    BitboardDetermined(pawns[BLACK], pawns'[BLACK], board, bP, bP);
    BitboardDetermined(pawns[BOTH], pawns'[BOTH], board, wP, bP);
  }

  /** Two bitboards marking the same squares of a board are equal. */
  lemma BitboardDetermined(bb: bv64, bb': bv64, board: seq<nat>, a: nat, b: nat)
    requires |board| == LargeNC
    requires PawnBitsMatch(bb, board, a, b) && PawnBitsMatch(bb', board, a, b)
    ensures bb == bb'
  {
    forall j: nat | j < 64
      ensures IsSet(bb, j) == IsSet(bb', j)
    {
      assert IsSet(bb, j) <==> board[Convert64To120(j)] == a || board[Convert64To120(j)] == b;
    }
    BitsEqual(bb, bb');
  }

  lemma CountersDetermined(pos: Position, r: Position)
    requires WellFormed(pos) && WellFormed(r) && r.board == pos.board
    requires CountersMatch(pos) && CountersMatch(r)
    ensures r.material == pos.material && r.bigPiece == pos.bigPiece
    ensures r.majPiece == pos.majPiece && r.minPiece == pos.minPiece
  {
  }

  // ---------------------------------------------------------------------
  // The stages of makeMove
  // ---------------------------------------------------------------------

  /** `r` keeps the fields `pos` had apart from the board-derived ones and
      the hash. */
  predicate SameScalars(pos: Position, r: Position) {
    && r.side == pos.side && r.enPas == pos.enPas && r.castlePerm == pos.castlePerm
    && r.fiftyMove == pos.fiftyMove && r.ply == pos.ply && r.hisPly == pos.hisPly
  }

  /** `pieceNum[EMPTY]`, which no primitive writes, is unchanged. */
  predicate SameEmpty(pos: Position, r: Position) {
    |pos.pieceNum| == 13 && |r.pieceNum| == 13 && r.pieceNum[EMPTY] == pos.pieceNum[EMPTY]
  }

  /** A change of scalar fields that leaves the side, the en-passant square,
      the castling rights and the hash alone keeps a hashed position hashed. */
  lemma Rekeyed(env: Env, pos: Position, r: Position)
    requires Hashed(env, pos) && SameMaterial(pos, r)
    requires r.side == pos.side && r.enPas == pos.enPas && r.castlePerm == pos.castlePerm
    requires r.posKey == pos.posKey && r.fiftyMove < 256
    requires |r.kings| == 2 && r.kings[WHITE] < LargeNC && r.kings[BLACK] < LargeNC
    ensures Hashed(env, r)
  {
    RekeyConsistent(pos, r);
    GenerateDepends(env, pos, r);
  }

  // ---------------------------------------------------------------------
  // The hash helpers
  // ---------------------------------------------------------------------

  /** `if (enPas != NO_SQ) hashEnPas()`: the en-passant square's key is
      folded in when a square is set. */
  function HashEnPas(env: Env, key: bv64, enPas: nat): bv64
    requires EnvOk(env) && enPas < LargeNC
  {
    if enPas != NO_SQ then Toggle(key, env.pieceKeys[EMPTY][enPas]) else key
  }

  /** `hashCastle()`. */
  function HashCastle(env: Env, key: bv64, castlePerm: bv8): bv64
    requires EnvOk(env) && castlePerm <= 15
  {
    Toggle(key, env.castleKeys[castlePerm as nat])
  }

  /** `hashSide()`. */
  function HashSide(env: Env, key: bv64): bv64 {
    Toggle(key, env.sideKey)
  }

  /** The guarded `hashEnPas` folds in the key `generate` uses for the square. */
  lemma HashEnPasIsKey(env: Env, key: bv64, enPas: nat)
    requires EnvOk(env) && enPas < LargeNC
    ensures HashEnPas(env, key, enPas) == Toggle(key, EnPasKey(env, enPas))
  {
    ToggleZero(key);
  }

  /** Folding two keys in and out again leaves the value with nothing folded. */
  lemma FoldOutTwo(z: bv64, e: bv64, c: bv64)
    ensures Toggle(Toggle(Toggle(Toggle(z, e), c), e), c) == Toggle(z, 0)
  {
    ToggleSwap(Toggle(z, e), c, e);
    ToggleTwice(z, e);
    ToggleTwice(z, c);
    ToggleZero(z);
  }

  /** An unsigned char's wrap-around. */
  function Wrap8(n: nat): nat {
    n % 256
  }

  /** The history record pushed first: the move with the rights, en-passant
      square, fifty-move count and hash it is played from. */
  function Record(pos: Position, m: Move): Undo {
    Undo(m, pos.castlePerm, pos.enPas, pos.fiftyMove, pos.posKey)
  }

  /** The rook of a castling move goes to its square beside the king, or the
      pawn taken en passant leaves the board. */
  function Special(env: Env, pos: Position, mv: MoveParts): (r: Position)
    requires Hashed(env, pos) && IsSideValid(pos.side) && MoveFits(pos.board, mv, pos.side)
    ensures Hashed(env, r) && SameEmpty(pos, r)
    ensures r.board == SpecialBoard(pos.board, mv, pos.side)
    ensures SameRest(pos, r)
  {
    FitSquares(pos.board, mv, pos.side);
    if mv.castle then
      MoveAtCount(env, pos, RookFrom(mv.to), RookTo(mv.to), EMPTY);
      MoveAt(env, pos, RookFrom(mv.to), RookTo(mv.to))
    else if mv.enPas then
      TakeAtCount(env, pos, EpVictim(mv.to, pos.side), EMPTY);
      TakeAt(env, pos, EpVictim(mv.to, pos.side))
    else pos
  }

  /** `movePiece` to an empty square on a hashed position. */
  function MoveAt(env: Env, pos: Position, from: nat, to: nat): (r: Position)
    requires Hashed(env, pos) && OnBoard(from) && OnBoard(to)
    requires IsPieceValid(pos.board[from]) && pos.board[to] == EMPTY
    ensures Hashed(env, r)
    ensures |pos.board| == LargeNC && r.board == Moved(pos.board, from, to)
    ensures |r.pieceNum| == 13
    ensures SameRest(pos, r)
  {
    MovePieceConsistent(env, pos, from, to);
    MoveFrame(env, pos, from, to);
    MovePiece(env, pos, from, to)
  }

  /** `clearPiece` of an occupied square on a hashed position. */
  function TakeAt(env: Env, pos: Position, sq: nat): (r: Position)
    requires Hashed(env, pos) && sq < LargeNC && IsPieceValid(pos.board[sq])
    ensures Hashed(env, r)
    ensures |r.pieceNum| == 13
    ensures |pos.board| == LargeNC && r.board == Cleared(pos.board, sq)
    ensures SameRest(pos, r)
  {
    assert CellOk(sq, pos.board[sq]);
    ClearPieceConsistent(env, pos, sq);
    ClearFrame(env, pos, sq);
    ClearPiece(env, pos, sq)
  }

  /** `clearPiece` lowers the count of the piece it removes and no other. */
  lemma TakeAtCount(env: Env, pos: Position, sq: nat, q: nat)
    requires Hashed(env, pos) && sq < LargeNC && IsPieceValid(pos.board[sq]) && q < 13
    ensures TakeAt(env, pos, sq).pieceNum[q] + (if q == pos.board[sq] then 1 else 0) == pos.pieceNum[q]
  {
    assert CellOk(sq, pos.board[sq]);
    CanClearWhenConsistent(env, pos, sq);
    ClearCount(env, pos, sq, q);
  }

  /** `addPiece` on an empty square of a hashed position. */
  function PutAt(env: Env, pos: Position, sq: nat, piece: nat): (r: Position)
    requires Hashed(env, pos) && OnBoard(sq) && IsPieceValid(piece)
    requires pos.board[sq] == EMPTY && pos.pieceNum[piece] < 10
    ensures Hashed(env, r)
    ensures |r.pieceNum| == 13
    ensures |pos.board| == LargeNC && r.board == Placed(pos.board, sq, piece)
    ensures SameRest(pos, r)
  {
    AddPieceConsistent(env, pos, sq, piece);
    AddFrame(env, pos, sq, piece);
    AddPiece(env, pos, sq, piece)
  }

  /** `addPiece` raises the count of the piece it places and no other. */
  lemma PutAtCount(env: Env, pos: Position, sq: nat, piece: nat, q: nat)
    requires Hashed(env, pos) && OnBoard(sq) && IsPieceValid(piece)
    requires pos.board[sq] == EMPTY && pos.pieceNum[piece] < 10 && q < 13
    ensures PutAt(env, pos, sq, piece).pieceNum[q] == pos.pieceNum[q] + (if q == piece then 1 else 0)
  {
    AddPieceConsistent(env, pos, sq, piece);
    AddCount(env, pos, sq, piece, q);
  }

  // ---------------------------------------------------------------------
  // The bookkeeping stages of makeMove
  // ---------------------------------------------------------------------

  /** `history.emplace_back(move, castlePerm, enPas, fiftyMove, posKey)`. */
  function Push(env: Env, pos: Position, m: Move): (r: Position)
    requires Hashed(env, pos)
    ensures Hashed(env, r) && SameMaterial(pos, r) && SameScalars(pos, r)
    ensures r.kings == pos.kings && r.posKey == pos.posKey
    ensures r.history == pos.history + [Record(pos, m)]
  {
    var r := pos.(history := pos.history + [Record(pos, m)]);
    Rekeyed(env, pos, r);
    r
  }

  /** The castling rights lose what the masks of `from` and `to` clear, the
      en-passant square is unset, and both changes are hashed. */
  function Rights(env: Env, pos: Position, mv: MoveParts): (r: Position)
    requires Hashed(env, pos) && mv.from < LargeNC && mv.to < LargeNC
    ensures Hashed(env, r) && SameMaterial(pos, r)
    ensures r.castlePerm == pos.castlePerm & env.bCastlePerm[mv.to] & env.bCastlePerm[mv.from]
    ensures r.enPas == NO_SQ
    ensures r.side == pos.side && r.fiftyMove == pos.fiftyMove && r.ply == pos.ply
    ensures r.hisPly == pos.hisPly && r.kings == pos.kings && r.history == pos.history
  {
    var cp := pos.castlePerm & env.bCastlePerm[mv.to] & env.bCastlePerm[mv.from];
    var key := HashCastle(env, HashCastle(env, HashEnPas(env, pos.posKey, pos.enPas), pos.castlePerm), cp);
    var r := pos.(castlePerm := cp, enPas := NO_SQ, posKey := key);
    RekeyConsistent(pos, r);
    HashEnPasIsKey(env, pos.posKey, pos.enPas);
    FoldOutTwo(Toggle(BoardKey(env, pos.board, LargeNC), SideKey(env, pos.side)),
               EnPasKey(env, pos.enPas), CastleKey(env, pos.castlePerm));
    r
  }

  /** `++fiftyMove` (an unsigned char) or its reset, `++hisPly`, `++ply`. */
  function Tick(env: Env, pos: Position, fifty: nat): (r: Position)
    requires Hashed(env, pos) && fifty < 256
    ensures Hashed(env, r) && SameMaterial(pos, r)
    ensures r.fiftyMove == fifty && r.ply == pos.ply + 1 && r.hisPly == pos.hisPly + 1
    ensures r.side == pos.side && r.enPas == pos.enPas && r.castlePerm == pos.castlePerm
    ensures r.kings == pos.kings && r.history == pos.history
  {
    var r := pos.(fiftyMove := fifty, ply := pos.ply + 1, hisPly := pos.hisPly + 1);
    Rekeyed(env, pos, r);
    r
  }

  /** `++fiftyMove`, then the resets by a capture and by a pawn move. */
  function NextFifty(fifty: nat, capture: bool, pawn: bool): nat {
    if capture || pawn then 0 else Wrap8(fifty + 1)
  }

  /** A capture clears `to`. */
  function Take(env: Env, pos: Position, mv: MoveParts): (r: Position)
    requires Hashed(env, pos) && OnBoard(mv.to)
    requires mv.captured != EMPTY ==> IsPieceValid(pos.board[mv.to])
    ensures Hashed(env, r) && SameEmpty(pos, r)
    ensures |pos.board| == LargeNC && r.board == CaptureBoard(pos.board, mv)
    ensures SameRest(pos, r)
  {
    if mv.captured != EMPTY then
      TakeAtCount(env, pos, mv.to, EMPTY);
      TakeAt(env, pos, mv.to)
    else pos
  }

  /** A double push sets the en-passant square behind the pawn and hashes it;
      `pawn` is `pieceP` of the moving piece. */
  function DoublePush(env: Env, pos: Position, mv: MoveParts, pawn: bool): (r: Position)
    requires Hashed(env, pos) && IsSideValid(pos.side) && OnBoard(mv.from) && pos.enPas == NO_SQ
    ensures Hashed(env, r) && SameMaterial(pos, r)
    ensures r.enPas == if pawn && mv.pawnStart then SkippedSquare(mv.from, pos.side) else NO_SQ
    ensures r.side == pos.side && r.castlePerm == pos.castlePerm && r.fiftyMove == pos.fiftyMove
    ensures r.ply == pos.ply && r.hisPly == pos.hisPly && r.kings == pos.kings && r.history == pos.history
  {
    if pawn && mv.pawnStart then
      var ep := SkippedSquare(mv.from, pos.side);
      var r := pos.(enPas := ep, posKey := HashEnPas(env, pos.posKey, ep));
      RekeyConsistent(pos, r);
      HashEnPasIsKey(env, pos.posKey, ep);
      GenerateEnPas(env, pos, r);
      ToggleZero(pos.posKey);
      r
    else pos
  }

  /** `movePiece` keeps every piece count. */
  lemma MoveAtCount(env: Env, pos: Position, from: nat, to: nat, q: nat)
    requires Hashed(env, pos) && OnBoard(from) && OnBoard(to)
    requires IsPieceValid(pos.board[from]) && pos.board[to] == EMPTY && q < 13
    ensures MoveAt(env, pos, from, to).pieceNum[q] == pos.pieceNum[q]
  {
    MovePieceConsistent(env, pos, from, to);
    MoveFrame(env, pos, from, to);
  }

  /** The promoted pawn on `sq` is cleared and the new piece added there. */
  function Promote(env: Env, pos: Position, sq: nat, piece: nat): (r: Position)
    requires Hashed(env, pos) && OnBoard(sq) && IsPieceValid(pos.board[sq])
    requires IsPieceValid(piece) && pos.pieceNum[piece] < 10
    ensures Hashed(env, r) && SameEmpty(pos, r)
    ensures |pos.board| == LargeNC && r.board == Placed(Cleared(pos.board, sq), sq, piece)
    ensures SameRest(pos, r)
  {
    var t := TakeAt(env, pos, sq);
    TakeAtCount(env, pos, sq, piece);
    TakeAtCount(env, pos, sq, EMPTY);
    PutAtCount(env, t, sq, piece, EMPTY);
    PutAt(env, t, sq, piece)
  }

  /** `if (pieceK[getPiece(sq)])` the mover's king square becomes `sq`. */
  function KingTo(env: Env, pos: Position, sq: nat): (r: Position)
    requires Hashed(env, pos) && IsSideValid(pos.side) && sq < LargeNC
    ensures Hashed(env, r) && SameMaterial(pos, r)
    ensures |pos.kings| == 2 && |pos.board| == LargeNC
    ensures r.kings == KingsAfter(pos.kings, pos.board, pos.side, sq)
    ensures SameScalars(pos, r) && r.history == pos.history
  {
    if KingOn(pos.board, sq) then
      var r := pos.(kings := pos.kings[pos.side := sq]);
      Rekeyed(env, pos, r);
      r
    else pos
  }

  /** The moving piece goes to `to` and a promotion replaces it. */
  function Land(env: Env, pos: Position, mv: MoveParts): (r: Position)
    requires Hashed(env, pos) && OnBoard(mv.from) && OnBoard(mv.to)
    requires IsPieceValid(pos.board[mv.from]) && pos.board[mv.to] == EMPTY
    requires mv.promoted != EMPTY ==> IsPieceValid(mv.promoted) && pos.pieceNum[mv.promoted] < 10
    ensures Hashed(env, r) && SameEmpty(pos, r)
    ensures |pos.board| == LargeNC && r.board == RelocateBoard(pos.board, mv)
    ensures SameRest(pos, r)
  {
    var moved := MoveAt(env, pos, mv.from, mv.to);
    MoveAtCount(env, pos, mv.from, mv.to, EMPTY);
    MovedTo(pos.board, mv.from, mv.to);
    if mv.promoted != EMPTY then
      MoveAtCount(env, pos, mv.from, mv.to, mv.promoted);
      Promote(env, moved, mv.to, mv.promoted)
    else moved
  }

  /** The moving piece goes to `to`, a promotion replaces it, and a king move
      records the king's new square. */
  function Relocate(env: Env, pos: Position, mv: MoveParts): (r: Position)
    requires Hashed(env, pos) && IsSideValid(pos.side) && OnBoard(mv.from) && OnBoard(mv.to)
    requires IsPieceValid(pos.board[mv.from]) && pos.board[mv.to] == EMPTY
    requires mv.promoted != EMPTY ==> IsPieceValid(mv.promoted) && pos.pieceNum[mv.promoted] < 10
    ensures Hashed(env, r) && SameEmpty(pos, r)
    ensures |pos.board| == LargeNC && r.board == RelocateBoard(pos.board, mv)
    ensures |pos.kings| == 2 && r.kings == KingsAfter(pos.kings, r.board, pos.side, mv.to)
    ensures SameScalars(pos, r) && r.history == pos.history
  {
    KingTo(env, Land(env, pos, mv), mv.to)
  }

  /** `side = Color(side ^ 1)` and `hashSide()`. */
  function Flip(env: Env, pos: Position): (r: Position)
    requires Hashed(env, pos) && IsSideValid(pos.side)
    ensures Hashed(env, r) && SameMaterial(pos, r)
    ensures r.side == Other(pos.side)
    ensures r.enPas == pos.enPas && r.castlePerm == pos.castlePerm && r.fiftyMove == pos.fiftyMove
    ensures r.ply == pos.ply && r.hisPly == pos.hisPly && r.kings == pos.kings && r.history == pos.history
  {
    var r := pos.(side := Other(pos.side), posKey := HashSide(env, pos.posKey));
    RekeyConsistent(pos, r);
    GenerateSide(env, pos, r);
    r
  }

  // ---------------------------------------------------------------------
  // makeMove
  // ---------------------------------------------------------------------

  /** A promotion has room in its piece list. */
  predicate Room(pos: Position, mv: MoveParts)
    requires |pos.pieceNum| == 13
  {
    mv.promoted != EMPTY ==> mv.promoted < 13 && pos.pieceNum[mv.promoted] < 10
  }

  /** The calls `makeMove` is written for: the position passes `check()` and
      keeps its list and frame invariants, the move fits the board for the
      side to move (a piece of that side moves, a capture takes an enemy
      piece that is not a king, the flags describe a castling, en-passant,
      promotion or double push that fits), and a promotion has room in its
      list. The pawn moves the generator emits are of this kind apart from
      the cases `Generated.Unchecked` names. */
  predicate Playable(env: Env, pos: Position, m: Move) {
    && Valid(env, pos) && |pos.board| == LargeNC && |pos.pieceNum| == 13
    && MoveFits(pos.board, Parts(m), pos.side)
    && Room(pos, Parts(m))
  }

  /** A capture lowers piece counts, never raises them. */
  lemma TakeCount(env: Env, pos: Position, mv: MoveParts, q: nat)
    requires Hashed(env, pos) && OnBoard(mv.to) && q < 13
    requires mv.captured != EMPTY ==> IsPieceValid(pos.board[mv.to])
    ensures Take(env, pos, mv).pieceNum[q] <= pos.pieceNum[q]
  {
    if mv.captured != EMPTY {
      TakeAtCount(env, pos, mv.to, q);
    }
  }

  /** A capture leaves room for a promotion that had room before. */
  lemma TakeRoom(env: Env, pos: Position, mv: MoveParts)
    requires Hashed(env, pos) && OnBoard(mv.to) && Room(pos, mv)
    requires mv.captured != EMPTY ==> IsPieceValid(pos.board[mv.to])
    ensures Room(Take(env, pos, mv), mv)
  {
    if mv.promoted != EMPTY {
      TakeCount(env, pos, mv, mv.promoted);
    }
  }

  /** The first half of `makeMove`: the record, the special writes and the
      new rights. */
  function Open(env: Env, pos: Position, m: Move): (r: Position)
    requires Playable(env, pos, m)
    ensures Hashed(env, r) && SameEmpty(pos, r) && IsSideValid(r.side)
    ensures |pos.board| == LargeNC && r.board == SpecialBoard(pos.board, Parts(m), pos.side)
    ensures r.enPas == NO_SQ && Room(r, Parts(m))
    ensures r.side == pos.side && r.fiftyMove == pos.fiftyMove && r.ply == pos.ply
    ensures r.hisPly == pos.hisPly && r.kings == pos.kings
    ensures r.history == pos.history + [Record(pos, m)]
    ensures r.castlePerm == pos.castlePerm & env.bCastlePerm[Parts(m).to] & env.bCastlePerm[Parts(m).from]
  {
    var mv := Parts(m);
    var special := Special(env, Push(env, pos, m), mv);
    Rights(env, special, mv)
  }

  /** What the second half of `makeMove` needs of the first. */
  predicate Closable(env: Env, pos: Position, mv: MoveParts) {
    && Hashed(env, pos) && IsSideValid(pos.side) && OnBoard(mv.from) && OnBoard(mv.to)
    && mv.from != mv.to && pos.enPas == NO_SQ && Room(pos, mv)
    && IsPieceValid(pos.board[mv.from])
    && (mv.captured != EMPTY ==> IsPieceValid(pos.board[mv.to]))
    && (mv.captured == EMPTY ==> pos.board[mv.to] == EMPTY)
    && (mv.promoted != EMPTY ==> IsPieceValid(mv.promoted))
  }

  /** The first half leaves what the second needs. */
  lemma OpenClosable(env: Env, pos: Position, m: Move)
    requires Playable(env, pos, m)
    ensures Closable(env, Open(env, pos, m), Parts(m))
  {
    FitSquares(pos.board, Parts(m), pos.side);
    SpecialKeeps(pos.board, Parts(m), pos.side);
  }

  /** The capture, the counters and the pawn rules. */
  function Rule(env: Env, pos: Position, mv: MoveParts): (r: Position)
    requires Closable(env, pos, mv)
    ensures Hashed(env, r) && SameEmpty(pos, r)
    ensures |pos.board| == LargeNC && r.board == CaptureBoard(pos.board, mv)
    ensures r.side == pos.side && r.castlePerm == pos.castlePerm && r.history == pos.history
    ensures r.ply == pos.ply + 1 && r.hisPly == pos.hisPly + 1 && r.kings == pos.kings
    ensures r.fiftyMove == NextFifty(pos.fiftyMove, mv.captured != EMPTY, env.pieceP[pos.board[mv.from]])
    ensures r.enPas == if env.pieceP[pos.board[mv.from]] && mv.pawnStart
                       then SkippedSquare(mv.from, pos.side) else NO_SQ
    ensures Room(r, mv)
  {
    var pawn := env.pieceP[pos.board[mv.from]];
    var taken := Take(env, pos, mv);
    TakeRoom(env, pos, mv);
    var ticked := Tick(env, taken, NextFifty(pos.fiftyMove, mv.captured != EMPTY, pawn));
    DoublePush(env, ticked, mv, pawn)
  }

  /** The second half of `makeMove`: the capture, the counters, the pawn
      rules and the piece move. */
  function Close(env: Env, pos: Position, mv: MoveParts): (r: Position)
    requires Closable(env, pos, mv)
    ensures Hashed(env, r) && SameEmpty(pos, r) && IsSideValid(r.side)
    ensures |pos.board| == LargeNC && r.board == RelocateBoard(CaptureBoard(pos.board, mv), mv)
    ensures r.side == pos.side && r.castlePerm == pos.castlePerm && r.history == pos.history
    ensures r.ply == pos.ply + 1 && r.hisPly == pos.hisPly + 1
    ensures r.fiftyMove == NextFifty(pos.fiftyMove, mv.captured != EMPTY, env.pieceP[pos.board[mv.from]])
    ensures r.enPas == if env.pieceP[pos.board[mv.from]] && mv.pawnStart
                       then SkippedSquare(mv.from, pos.side) else NO_SQ
    ensures |pos.kings| == 2 && r.kings == KingsAfter(pos.kings, r.board, pos.side, mv.to)
  {
    CaptureKeeps(pos.board, mv);
    Relocate(env, Rule(env, pos, mv), mv)
  }

  /** `makeMove` up to its legality test: the record is pushed, the special
      writes, rights and en-passant bookkeeping, capture, pawn rules and piece
      move are done, and the side is flipped. */
  function Play(env: Env, pos: Position, m: Move): (r: Position)
    requires Playable(env, pos, m)
    ensures Hashed(env, r) && SameEmpty(pos, r)
    ensures |pos.board| == LargeNC && r.board == PlayBoard(pos.board, Parts(m), pos.side)
  {
    OpenClosable(env, pos, m);
    Flip(env, Close(env, Open(env, pos, m), Parts(m)))
  }

  /** `makeMove` pushes exactly one record, holding the move and the rights,
      en-passant square, fifty-move count and hash it was played from, hands
      the move to the other side and counts one more ply. */
  lemma PlayRecords(env: Env, pos: Position, m: Move)
    requires Playable(env, pos, m)
    ensures Play(env, pos, m).history == pos.history + [Record(pos, m)]
    ensures Play(env, pos, m).side == Other(pos.side)
    ensures Play(env, pos, m).ply == pos.ply + 1 && Play(env, pos, m).hisPly == pos.hisPly + 1
  {
    OpenClosable(env, pos, m);
  }

  /** A move never grants a castling right: the rights after it are a subset
      of the rights before. */
  lemma PlayRightsShrink(env: Env, pos: Position, m: Move)
    requires Playable(env, pos, m)
    ensures Play(env, pos, m).castlePerm & pos.castlePerm == Play(env, pos, m).castlePerm
  {
    PlayRights(env, pos, m);
  }

  /** The castling rights keep only what the masks of both squares allow. */
  lemma PlayRights(env: Env, pos: Position, m: Move)
    requires Playable(env, pos, m)
    ensures Play(env, pos, m).castlePerm
         == pos.castlePerm & env.bCastlePerm[Parts(m).to] & env.bCastlePerm[Parts(m).from]
  {
    OpenClosable(env, pos, m);
  }

  /** The fifty-move counter is reset by a capture or a pawn move and
      otherwise counts on; the en-passant square is set behind a double push
      and otherwise unset. */
  lemma PlayCounters(env: Env, pos: Position, m: Move)
    requires Playable(env, pos, m)
    ensures |env.pieceP| == 13 && |pos.board| == LargeNC && pos.board[Parts(m).from] < 13
    ensures Play(env, pos, m).fiftyMove
         == NextFifty(pos.fiftyMove, Parts(m).captured != EMPTY, env.pieceP[pos.board[Parts(m).from]])
    ensures Play(env, pos, m).enPas ==
      if env.pieceP[pos.board[Parts(m).from]] && Parts(m).pawnStart
      then SkippedSquare(Parts(m).from, pos.side) else NO_SQ
  {
    OpenClosable(env, pos, m);
    SpecialKeeps(pos.board, Parts(m), pos.side);
  }

  /** A king move records the king's new square for the mover. */
  lemma PlayKings(env: Env, pos: Position, m: Move)
    requires Playable(env, pos, m)
    ensures |pos.kings| == 2 && |Play(env, pos, m).board| == LargeNC
    ensures Play(env, pos, m).kings == KingsAfter(pos.kings, Play(env, pos, m).board, pos.side, Parts(m).to)
  {
    OpenClosable(env, pos, m);
  }

  /** Kings recorded the way `makeMove` records them. */
  lemma KingsOkOf(r: Position, b: seq<nat>, mv: MoveParts, side: nat, kings: seq<nat>)
    requires WellFormed(r) && |b| == LargeNC && side < 2 && MoveFits(b, mv, side) && KingsOn(b, kings)
    requires r.board == PlayBoard(b, mv, side) && r.kings == KingsAfter(kings, r.board, side, mv.to)
    ensures KingsOk(r)
  {
    PlayKingsOn(b, mv, side, kings);
  }

  /** An en-passant square set the way `makeMove` sets it. */
  lemma EnPasOkOf(r: Position, mv: MoveParts, side: nat, pawn: bool)
    requires WellFormed(r) && side < 2 && OnBoard(mv.from) && r.side == Other(side)
    requires mv.pawnStart ==> StartRank(mv.from, side)
    requires r.enPas == if pawn && mv.pawnStart then SkippedSquare(mv.from, side) else NO_SQ
    ensures EnPasOk(r)
  {
    if r.enPas != NO_SQ {
      SkippedRank(mv.from, side);
    }
  }

  /** The king squares still hold the kings after `makeMove`. */
  lemma PlayKingsOk(env: Env, pos: Position, m: Move)
    requires Playable(env, pos, m)
    ensures WellFormed(Play(env, pos, m)) && KingsOk(Play(env, pos, m))
  {
    PlayKings(env, pos, m);
    KingsOkOf(Play(env, pos, m), pos.board, Parts(m), pos.side, pos.kings);
  }

  /** The en-passant square `makeMove` leaves is unset or on the rank the new
      side to move can capture on. */
  lemma PlayEnPasOk(env: Env, pos: Position, m: Move)
    requires Playable(env, pos, m)
    ensures WellFormed(Play(env, pos, m)) && EnPasOk(Play(env, pos, m))
  {
    PlayRecords(env, pos, m);
    PlayCounters(env, pos, m);
    EnPasOkOf(Play(env, pos, m), Parts(m), pos.side, env.pieceP[pos.board[Parts(m).from]]);
  }

  /** `check()` holds after `makeMove` when it held before: the hash, the
      derived fields, the en-passant rank for the new side and the king
      squares all agree. */
  lemma PlayValid(env: Env, pos: Position, m: Move)
    requires Playable(env, pos, m)
    ensures Valid(env, Play(env, pos, m))
  {
    PlayRecords(env, pos, m);
    PlayKingsOk(env, pos, m);
    PlayEnPasOk(env, pos, m);
  }

  // ---------------------------------------------------------------------
  // The stages of takeBackMove
  // ---------------------------------------------------------------------

  /** The last history record. */
  function Last(pos: Position): Undo
    requires |pos.history| > 0
  {
    pos.history[|pos.history| - 1]
  }

  /** The fields a record restores fit the position's fields. */
  predicate RecordOk(u: Undo) {
    u.enPas < LargeNC && u.castlePerm <= 15 && u.fiftyMove < 256
  }

  /** Hashing the en-passant square and the rights out and new ones in gives
      the from-scratch hash of the position with the new ones. */
  lemma Rehashed(env: Env, pos: Position, r: Position, enPas: nat, castlePerm: bv8)
    requires Hashed(env, pos) && WellFormed(r)
    requires r.board == pos.board && r.side == pos.side
    requires r.enPas == enPas && r.castlePerm == castlePerm
    ensures r.posKey == HashCastle(env, HashEnPas(env,
              HashCastle(env, HashEnPas(env, pos.posKey, pos.enPas), pos.castlePerm), enPas), castlePerm)
         ==> r.posKey == Generate(env, r)
  {
    var out := HashCastle(env, HashEnPas(env, pos.posKey, pos.enPas), pos.castlePerm);
    HashEnPasIsKey(env, pos.posKey, pos.enPas);
    HashEnPasIsKey(env, out, enPas);
    var z := Toggle(BoardKey(env, pos.board, LargeNC), SideKey(env, pos.side));
    FoldOutTwo(z, EnPasKey(env, pos.enPas), CastleKey(env, pos.castlePerm));
    ToggleZero(z);
  }

  /** `--hisPly`, `--ply`, the last record popped, and the castling rights,
      fifty-move count and en-passant square it holds restored, each change
      hashed out and in. */
  function Unrecord(env: Env, pos: Position): (r: Position)
    requires Hashed(env, pos) && |pos.history| > 0 && RecordOk(Last(pos))
    ensures Hashed(env, r) && SameMaterial(pos, r)
    ensures r.castlePerm == Last(pos).castlePerm && r.enPas == Last(pos).enPas
    ensures r.fiftyMove == Last(pos).fiftyMove
    ensures r.ply == pos.ply - 1 && r.hisPly == pos.hisPly - 1
    ensures r.side == pos.side && r.kings == pos.kings
    ensures r.history == pos.history[..|pos.history| - 1]
  {
    var u := Last(pos);
    var out := HashCastle(env, HashEnPas(env, pos.posKey, pos.enPas), pos.castlePerm);
    var key := HashCastle(env, HashEnPas(env, out, u.enPas), u.castlePerm);
    var r := pos.(ply := pos.ply - 1, hisPly := pos.hisPly - 1,
                  history := pos.history[..|pos.history| - 1],
                  castlePerm := u.castlePerm, fiftyMove := u.fiftyMove, enPas := u.enPas,
                  posKey := key);
    RekeyConsistent(pos, r);
    Rehashed(env, pos, r, u.enPas, u.castlePerm);
    r
  }

  /** The rook of a castling move goes back to its corner, or the pawn taken
      en passant comes back. */
  function SpecialBack(env: Env, pos: Position, mv: MoveParts): (r: Position)
    requires Hashed(env, pos) && IsSideValid(pos.side) && |pos.board| == LargeNC
    requires UnmoveFits(pos.board, mv, pos.side)
    requires !mv.castle && mv.enPas ==> pos.pieceNum[PawnOf(Other(pos.side))] < 10
    ensures Hashed(env, r) && SameEmpty(pos, r)
    ensures r.board == SpecialBackBoard(pos.board, mv, pos.side)
    ensures SameRest(pos, r)
  {
    UnfitSquares(pos.board, mv, pos.side);
    if mv.castle then
      MoveAtCount(env, pos, RookTo(mv.to), RookFrom(mv.to), EMPTY);
      MoveAt(env, pos, RookTo(mv.to), RookFrom(mv.to))
    else if mv.enPas then
      PutAtCount(env, pos, EpVictim(mv.to, pos.side), PawnOf(Other(pos.side)), EMPTY);
      PutAt(env, pos, EpVictim(mv.to, pos.side), PawnOf(Other(pos.side)))
    else pos
  }

  /** The piece goes back from `to` to `from`, and a king records `from`. */
  function Unmove(env: Env, pos: Position, mv: MoveParts): (r: Position)
    requires Hashed(env, pos) && IsSideValid(pos.side) && OnBoard(mv.from) && OnBoard(mv.to)
    requires IsPieceValid(pos.board[mv.to]) && pos.board[mv.from] == EMPTY
    ensures Hashed(env, r) && SameEmpty(pos, r)
    ensures |pos.board| == LargeNC && r.board == UnmoveBoard(pos.board, mv)
    ensures |pos.kings| == 2 && r.kings == KingsBack(pos.kings, pos.board, pos.side, mv)
    ensures SameScalars(pos, r) && r.history == pos.history
  {
    MoveAtCount(env, pos, mv.to, mv.from, EMPTY);
    KingsBackIs(pos.kings, pos.board, pos.side, mv);
    KingTo(env, MoveAt(env, pos, mv.to, mv.from), mv.from)
  }

  /** The captured piece is put back on `to`. */
  function Uncapture(env: Env, pos: Position, mv: MoveParts): (r: Position)
    requires Hashed(env, pos) && OnBoard(mv.to) && pos.board[mv.to] == EMPTY
    requires mv.captured != EMPTY ==> IsPieceValid(mv.captured) && pos.pieceNum[mv.captured] < 10
    ensures Hashed(env, r) && SameEmpty(pos, r)
    ensures |pos.board| == LargeNC && r.board == UncaptureBoard(pos.board, mv)
    ensures SameRest(pos, r)
  {
    if mv.captured != EMPTY then
      PutAtCount(env, pos, mv.to, mv.captured, EMPTY);
      PutAt(env, pos, mv.to, mv.captured)
    else pos
  }

  /** A promoted piece on `from` turns back into a pawn of its colour. */
  function Unpromote(env: Env, pos: Position, mv: MoveParts): (r: Position)
    requires Hashed(env, pos) && OnBoard(mv.from) && mv.promoted <= bK
    requires mv.promoted != EMPTY ==>
      IsPieceValid(pos.board[mv.from]) && pos.pieceNum[PawnOf(PieceCol[mv.promoted])] < 10
    ensures Hashed(env, r) && SameEmpty(pos, r)
    ensures |pos.board| == LargeNC && r.board == UnpromoteBoard(pos.board, mv)
    ensures SameRest(pos, r)
  {
    if mv.promoted != EMPTY then Promote(env, pos, mv.from, PawnOf(PieceCol[mv.promoted]))
    else pos
  }

  /** A consistent position's piece count is the board's count. */
  lemma PieceNumIsCount(pos: Position, p: nat)
    requires Consistent(pos) && p <= bK
    ensures |pos.board| == LargeNC && |pos.pieceNum| == 13
    ensures p != EMPTY ==> pos.pieceNum[p] == Count(pos.board, p)
  {
    if p != EMPTY {
      assert ListMatches(pos, p);
    }
  }

  /** The positions the board stages of `takeBackMove` expect, with the side
      to move being the side that made the move. */
  predicate Unwindable(env: Env, pos: Position, mv: MoveParts) {
    && Hashed(env, pos) && IsSideValid(pos.side) && |pos.board| == LargeNC
    && OnBoard(mv.from) && OnBoard(mv.to) && mv.promoted <= bK
    && Undoable(pos.board, mv, pos.side)
  }

  /** The special piece goes back, then the moving piece. */
  function Retreat(env: Env, pos: Position, mv: MoveParts): (r: Position)
    requires Unwindable(env, pos, mv)
    ensures Hashed(env, r) && SameEmpty(pos, r)
    ensures |pos.board| == LargeNC && OnBoard(mv.from) && OnBoard(mv.to) && pos.side < 2
         && r.board == UnmoveBoard(SpecialBackBoard(pos.board, mv, pos.side), mv)
    ensures |pos.kings| == 2 && r.kings == KingsBack(pos.kings, pos.board, pos.side, mv)
    ensures SameScalars(pos, r) && r.history == pos.history
  {
    UnwindCells(pos.board, mv, pos.side);
    PieceNumIsCount(pos, PawnOf(Other(pos.side)));
    EnPasRoom(pos.board, mv, pos.side);
    SpecialBackKings(pos.kings, pos.board, mv, pos.side);
    Unmove(env, SpecialBack(env, pos, mv), mv)
  }

  /** The captured piece comes back after the moving piece went back. */
  function Replace(env: Env, pos: Position, mv: MoveParts): (r: Position)
    requires Unwindable(env, pos, mv)
    ensures Hashed(env, r) && SameEmpty(pos, r)
    ensures |pos.board| == LargeNC && OnBoard(mv.from) && OnBoard(mv.to) && pos.side < 2
         && r.board == UncaptureBoard(UnmoveBoard(SpecialBackBoard(pos.board, mv, pos.side), mv), mv)
    ensures |pos.kings| == 2 && r.kings == KingsBack(pos.kings, pos.board, pos.side, mv)
    ensures SameScalars(pos, r) && r.history == pos.history
  {
    UnwindCells(pos.board, mv, pos.side);
    var back := Retreat(env, pos, mv);
    PieceNumIsCount(back, mv.captured);
    CaptureRoom(pos.board, mv, pos.side);
    Uncapture(env, back, mv)
  }

  /** The board stages of `takeBackMove`: rook or en-passant pawn, moving
      piece, captured piece, promotion. */
  function Restore(env: Env, pos: Position, mv: MoveParts): (r: Position)
    requires Unwindable(env, pos, mv)
    ensures Hashed(env, r) && SameEmpty(pos, r)
    ensures |pos.board| == LargeNC && OnBoard(mv.from) && OnBoard(mv.to) && pos.side < 2
         && r.board == UndoBoard(pos.board, mv, pos.side)
    ensures |pos.kings| == 2 && r.kings == KingsBack(pos.kings, pos.board, pos.side, mv)
    ensures SameScalars(pos, r) && r.history == pos.history
  {
    UnwindCells(pos.board, mv, pos.side);
    var back := Replace(env, pos, mv);
    PieceNumIsCount(back, PawnOf(pos.side));
    PromotionRoom(pos.board, mv, pos.side);
    Unpromote(env, back, mv)
  }

  // ---------------------------------------------------------------------
  // takeBackMove
  // ---------------------------------------------------------------------

  /** The positions `takeBackMove` expects: a record to pop whose move the
      side not to move played onto this board, with room in the piece lists
      for what comes back. */
  predicate Retractable(env: Env, pos: Position) {
    Hashed(env, pos) && Unplayable(pos)
  }

  /** The record and board part of `Retractable`. */
  predicate Unplayable(pos: Position) {
    && IsSideValid(pos.side) && |pos.board| == LargeNC
    && |pos.history| > 0 && RecordOk(Last(pos))
    && OnBoard(Parts(Last(pos).move).from) && OnBoard(Parts(Last(pos).move).to)
    && Parts(Last(pos).move).promoted <= bK
    && Undoable(pos.board, Parts(Last(pos).move), Other(pos.side))
  }

  /** `takeBackMove`: the record is popped and its fields restored, the side
      flips back, and the board stages run in reverse. */
  function TakeBack(env: Env, pos: Position): (r: Position)
    requires Retractable(env, pos)
    ensures Hashed(env, r) && SameEmpty(pos, r)
    ensures r.board == UndoBoard(pos.board, Parts(Last(pos).move), Other(pos.side))
    ensures r.side == Other(pos.side)
    ensures r.castlePerm == Last(pos).castlePerm && r.enPas == Last(pos).enPas
    ensures r.fiftyMove == Last(pos).fiftyMove
    ensures r.ply == pos.ply - 1 && r.hisPly == pos.hisPly - 1
    ensures r.history == pos.history[..|pos.history| - 1]
    ensures |pos.kings| == 2
         && r.kings == KingsBack(pos.kings, pos.board, Other(pos.side), Parts(Last(pos).move))
  {
    Restore(env, Flip(env, Unrecord(env, pos)), Parts(Last(pos).move))
  }

  /** A consistent position's board has no piece more than ten times. */
  lemma CapacityOf(pos: Position)
    requires Consistent(pos)
    ensures |pos.board| == LargeNC && Capacity(pos.board)
  {
    forall p | wP <= p <= bK
      ensures Count(pos.board, p) <= 10
    {
      PieceNumIsCount(pos, p);
    }
  }

  /** A position whose board is a move's result and whose last record holds
      that move can be taken back. */
  lemma RetractableOf(r: Position, b: seq<nat>, mv: MoveParts, side: nat, h: seq<Undo>, u: Undo)
    requires |b| == LargeNC && side < 2 && MoveFits(b, mv, side) && Capacity(b)
    requires r.board == PlayBoard(b, mv, side) && r.side == Other(side)
    requires r.history == h + [u] && Parts(u.move) == mv && RecordOk(u)
    ensures Unplayable(r) && Last(r) == u
  {
    PlayUndoable(b, mv, side);
  }

  /** The position `makeMove` leaves can be taken back, and its last record
      is the one `makeMove` pushed. */
  lemma PlayRetractable(env: Env, pos: Position, m: Move)
    requires Playable(env, pos, m)
    ensures Unplayable(Play(env, pos, m))
    ensures Last(Play(env, pos, m)) == Record(pos, m)
  {
    PlayRecords(env, pos, m);
    CapacityOf(pos);
    RetractableOf(Play(env, pos, m), pos.board, Parts(m), pos.side, pos.history, Record(pos, m));
  }

  /** The king that moves is the one recorded for the side to move. A legal
      position has one king of each colour, so this always holds there;
      `check()` only asks that the recorded squares hold kings. */
  predicate KingTracked(pos: Position, m: Move) {
    && |pos.board| == LargeNC && |pos.kings| == 2 && pos.side < 2 && Parts(m).from < LargeNC
    && (pos.board[Parts(m).from] == KingOf(pos.side) ==> pos.kings[pos.side] == Parts(m).from)
  }

  /** `r` is `pos` again: every field, with each piece list holding the same
      squares, possibly in another order. */
  predicate Restored(pos: Position, r: Position)
    requires WellFormed(pos) && WellFormed(r)
  {
    && r.board == pos.board && r.side == pos.side && r.enPas == pos.enPas
    && r.castlePerm == pos.castlePerm && r.fiftyMove == pos.fiftyMove
    && r.ply == pos.ply && r.hisPly == pos.hisPly && r.posKey == pos.posKey
    && r.kings == pos.kings && r.history == pos.history
    && r.pieceNum == pos.pieceNum && r.pawns == pos.pawns
    && r.material == pos.material && r.bigPiece == pos.bigPiece
    && r.majPiece == pos.majPiece && r.minPiece == pos.minPiece
    && (forall p, sq :: wP <= p <= bK && 0 <= sq < LargeNC ==>
          (sq in Live(r, p) <==> sq in Live(pos, p)))
  }

  /** `p` is what `makeMove` of `m` leaves of `pos`, field by field. */
  predicate PlayedFrom(pos: Position, p: Position, m: Move)
    requires |pos.board| == LargeNC && pos.side < 2 && |pos.kings| == 2
    requires OnBoard(Parts(m).from) && OnBoard(Parts(m).to)
  {
    && p.board == PlayBoard(pos.board, Parts(m), pos.side) && p.side == Other(pos.side)
    && p.ply == pos.ply + 1 && p.hisPly == pos.hisPly + 1
    && p.history == pos.history + [Record(pos, m)]
    && p.kings == KingsAfter(pos.kings, p.board, pos.side, Parts(m).to)
  }

  /** `t` is what `takeBackMove` leaves of `p`, field by field. */
  predicate TookBack(p: Position, t: Position)
    requires Unplayable(p) && |p.kings| == 2
  {
    && t.board == UndoBoard(p.board, Parts(Last(p).move), Other(p.side))
    && t.side == Other(p.side)
    && t.castlePerm == Last(p).castlePerm && t.enPas == Last(p).enPas
    && t.fiftyMove == Last(p).fiftyMove
    && t.ply == p.ply - 1 && t.hisPly == p.hisPly - 1
    && t.history == p.history[..|p.history| - 1]
    && t.kings == KingsBack(p.kings, p.board, Other(p.side), Parts(Last(p).move))
  }

  lemma PlayPlayedFrom(env: Env, pos: Position, m: Move)
    requires Playable(env, pos, m)
    ensures |pos.board| == LargeNC && pos.side < 2 && |pos.kings| == 2
    ensures OnBoard(Parts(m).from) && OnBoard(Parts(m).to)
    ensures PlayedFrom(pos, Play(env, pos, m), m)
  {
    PlayRecords(env, pos, m);
    PlayKings(env, pos, m);
  }

  lemma TakeBackTookBack(env: Env, p: Position)
    requires Retractable(env, p)
    ensures |p.kings| == 2 && TookBack(p, TakeBack(env, p))
  {
  }

  /** The fields a take-back computes from the position a move left are the
      fields before the move. */
  lemma UndoneOf(pos: Position, p: Position, t: Position, m: Move)
    requires KingTracked(pos, m) && OnBoard(Parts(m).from) && OnBoard(Parts(m).to)
    requires MoveFits(pos.board, Parts(m), pos.side)
    requires PlayedFrom(pos, p, m)
    requires Unplayable(p) && Last(p) == Record(pos, m) && TookBack(p, t)
    ensures t.board == pos.board && SameScalars(pos, t)
    ensures t.history == pos.history && t.kings == pos.kings
  {
    UndoPlayBoard(pos.board, Parts(m), pos.side);
    KingsRoundTrip(pos.board, Parts(m), pos.side, pos.kings);
    assert p.history[..|p.history| - 1] == pos.history;
  }

  /** `makeMove` followed by `takeBackMove` gives back the board, the side,
      the rights, the counters, the history and the king squares. */
  function Retracted(env: Env, pos: Position, m: Move): (r: Position)
    requires Playable(env, pos, m) && KingTracked(pos, m)
    ensures Hashed(env, r) && SameEmpty(pos, r)
    ensures r.board == pos.board && SameScalars(pos, r)
    ensures r.history == pos.history && r.kings == pos.kings
  {
    PlayPlayedFrom(env, pos, m);
    PlayRetractable(env, pos, m);
    var p := Play(env, pos, m);
    TakeBackTookBack(env, p);
    var t := TakeBack(env, p);
    UndoneOf(pos, p, t, m);
    t
  }

  /** `takeBackMove` after `makeMove` restores the position: the fields
      derived from the board follow from the board, and the hash from the
      board, side, en-passant square and rights. */
  lemma MakeTakeBack(env: Env, pos: Position, m: Move)
    requires Playable(env, pos, m) && KingTracked(pos, m)
    ensures WellFormed(Retracted(env, pos, m)) && Restored(pos, Retracted(env, pos, m))
  {
    var r := Retracted(env, pos, m);
    GenerateDepends(env, pos, r);
    RestoredOf(pos, r);
  }

  /** Two consistent positions on the same board that agree on the scalar
      fields, the history, the kings, the hash and `pieceNum[EMPTY]` are the
      same position up to the order of the piece lists. */
  lemma RestoredOf(pos: Position, r: Position)
    requires Consistent(pos) && Consistent(r) && r.board == pos.board
    requires SameScalars(pos, r) && r.history == pos.history && r.kings == pos.kings
    requires r.posKey == pos.posKey && r.pieceNum[EMPTY] == pos.pieceNum[EMPTY]
    ensures Restored(pos, r)
  {
    Determined(pos, r);
    SameCounts(pos.pieceNum, r.pieceNum);
  }

  /** Piece counts that agree on `EMPTY` and on every piece are equal. */
  lemma SameCounts(a: seq<nat>, b: seq<nat>)
    requires |a| == 13 && |b| == 13 && a[EMPTY] == b[EMPTY]
    requires forall p :: wP <= p <= bK ==> a[p] == b[p]
    ensures a == b
  {
    assert forall p :: 0 <= p < 13 ==> a[p] == b[p];
  }

  // ---------------------------------------------------------------------
  // makeMove
  // ---------------------------------------------------------------------

  /** The king squares of a well-formed position whose kings are where they
      are recorded lie on the board. */
  lemma KingsOnBoard(pos: Position)
    requires WellFormed(pos) && KingsOk(pos)
    ensures OnBoard(pos.kings[WHITE]) && OnBoard(pos.kings[BLACK])
  {
    assert CellOk(pos.kings[WHITE], pos.board[pos.kings[WHITE]]);
    assert CellOk(pos.kings[BLACK], pos.board[pos.kings[BLACK]]);
  }

  /** After the move, the side that moved has its king attacked by the side
      now to move. */
  predicate LeavesKingAttacked(env: Env, pos: Position, m: Move)
    requires Playable(env, pos, m)
  {
    PlayKingSquare(env, pos, m);
    var p := Play(env, pos, m);
    Attack.IsAttacked(p.board, p.kings[Other(p.side)], p.side)
  }

  /** The mover's king square after the move is on the board. */
  lemma PlayKingSquare(env: Env, pos: Position, m: Move)
    requires Playable(env, pos, m)
    ensures Framed(Play(env, pos, m).board) && Play(env, pos, m).side < 2
    ensures |Play(env, pos, m).kings| == 2
    ensures OnBoard(Play(env, pos, m).kings[Other(Play(env, pos, m).side)])
  {
    PlayKingsOk(env, pos, m);
    PlayRecords(env, pos, m);
    KingsOnBoard(Play(env, pos, m));
  }

  /** A position with the board, side, en-passant square and kings of a
      valid one, and the hash and derived fields agreeing, is valid. */
  lemma ValidOf(env: Env, pos: Position, r: Position)
    requires Valid(env, pos) && Hashed(env, r)
    requires r.board == pos.board && r.side == pos.side && r.enPas == pos.enPas
    requires r.kings == pos.kings
    ensures Valid(env, r)
  {
  }

  /** `makeMove`: the move is played, and a move that leaves the mover's king
      attacked is taken back and refused. Either way `check()` holds after. */
  function MakeMove(env: Env, pos: Position, m: Move): (res: (bool, Position))
    requires Playable(env, pos, m) && KingTracked(pos, m)
    ensures Valid(env, res.1)
    ensures res.0 <==> !LeavesKingAttacked(env, pos, m)
    ensures res.0 ==> res.1 == Play(env, pos, m)
    ensures !res.0 ==> WellFormed(res.1) && Restored(pos, res.1)
  {
    if LeavesKingAttacked(env, pos, m) then
      MakeTakeBack(env, pos, m);
      ValidOf(env, pos, Retracted(env, pos, m));
      (false, Retracted(env, pos, m))
    else
      PlayValid(env, pos, m);
      (true, Play(env, pos, m))
  }
}
