/** The field edits the primitives of src/makemove.cpp are built from, and
    what each does to the agreement between a field and the board. The lemmas
    here speak of a position `pos` and any position `r` whose fields are
    given by equations, so that a proof about one field never has to look at
    the others. */
module Steps {
  import opened Constants
  import opened Bitboard
  import opened ConstantsH
  import opened Ranges
  import opened Zobrist
  import opened Board
  import opened Cells
  import opened Lists

  // ---------------------------------------------------------------------
  // Field edits
  // ---------------------------------------------------------------------

  /** A counter array with colour `c`'s entry moved by `d`. */
  function Shift(s: seq<int>, c: nat, d: int): (r: seq<int>)
    requires c < |s|
    ensures |r| == |s|
  {
    s[c := s[c] + d]
  }

  /** The pawn bitboards of colour `c` and of both colours with bit `k`
      cleared. */
  function Unmark(pawns: seq<bv64>, c: nat, k: nat): (r: seq<bv64>)
    requires |pawns| == 3 && c < 2 && k < 64
    ensures |r| == 3
  {
    pawns[c := ClearBit(pawns[c], k)][BOTH := ClearBit(pawns[BOTH], k)]
  }

  /** The same two bitboards with bit `k` set. */
  function Mark(pawns: seq<bv64>, c: nat, k: nat): (r: seq<bv64>)
    requires |pawns| == 3 && c < 2 && k < 64
    ensures |r| == 3
  {
    pawns[c := SetBit(pawns[c], k)][BOTH := SetBit(pawns[BOTH], k)]
  }

  /** The piece lists with slot `i` of list `p` set to `sq`. */
  function Place(lists: seq<seq<nat>>, p: nat, i: nat, sq: nat): seq<seq<nat>>
    requires p < |lists| && i < |lists[p]|
  {
    var list: seq<nat> := lists[p][i := sq];
    lists[p := list]
  }

  lemma PlaceOk(lists: seq<seq<nat>>, p: nat, i: nat, sq: nat)
    requires SlotsOk(lists) && p < 13 && i < 10 && sq < LargeNC
    ensures SlotsOk(Place(lists, p, i, sq))
    ensures forall q :: 0 <= q < 13 && q != p ==> Place(lists, p, i, sq)[q] == lists[q]
    ensures Place(lists, p, i, sq)[p] == lists[p][i := sq]
  {
  }

  lemma PawnColour(p: nat)
    requires IsPawn(p)
    ensures PieceCol[p] == if p == wP then WHITE else BLACK
  {
  }

  /** The colour of a valid piece is white or black. */
  lemma ColourOf(p: nat)
    requires IsPieceValid(p)
    ensures PieceCol[p] < 2
  {
    PieceTablesAgree(p);
  }

  // ---------------------------------------------------------------------
  // Shape
  // ---------------------------------------------------------------------

  /** The fields no primitive touches. */
  predicate SameRest(pos: Position, r: Position) {
    && r.side == pos.side && r.enPas == pos.enPas && r.castlePerm == pos.castlePerm
    && r.kings == pos.kings && r.fiftyMove == pos.fiftyMove
    && r.ply == pos.ply && r.hisPly == pos.hisPly && r.history == pos.history
  }

  /** Thirteen piece counts of at most ten. */
  predicate CountsOk(nums: seq<nat>) {
    |nums| == 13 && forall q :: 0 <= q < 13 ==> nums[q] <= 10
  }

  lemma CountsOkAfter(nums: seq<nat>, p: nat, n: nat)
    requires CountsOk(nums) && p < 13 && n <= 10
    ensures CountsOk(nums[p := n])
  {
  }

  /** A framed board, array sizes as before, counts and slots in range and
      the untouched fields as in a well-formed position make `r` well formed. */
  lemma WellFormedOf(pos: Position, r: Position)
    requires WellFormed(pos) && Framed(r.board) && SameRest(pos, r)
    requires |r.pawns| == 3 && |r.material| == 2
    requires |r.bigPiece| == 2 && |r.majPiece| == 2 && |r.minPiece| == 2
    requires CountsOk(r.pieceNum) && SlotsOk(r.pieceList)
    ensures WellFormed(r)
  {
  }

  // ---------------------------------------------------------------------
  // Counters
  // ---------------------------------------------------------------------

  /** The counters of `r` are those of `pos` with piece `p`'s value and its
      big, major or minor count added (`add`) or taken away (`!add`) for its
      colour, in the way `addPiece` and `clearPiece` do it. */
  predicate CountersMoved(pos: Position, r: Position, p: nat, add: bool)
    requires WellFormed(pos) && IsPieceValid(p)
  {
    ColourOf(p);
    var col := PieceCol[p];
    var one := if add then 1 else -1;
    && r.material == Shift(pos.material, col, if add then PieceVal[p] else -PieceVal[p])
    && r.bigPiece == (if PieceBig[p] then Shift(pos.bigPiece, col, one) else pos.bigPiece)
    && r.majPiece == (if PieceBig[p] && PieceMaj[p] then Shift(pos.majPiece, col, one) else pos.majPiece)
    && r.minPiece == (if PieceBig[p] && !PieceMaj[p] then Shift(pos.minPiece, col, one) else pos.minPiece)
  }

  /** One counter array after a move by `d` for `col` (when `on`), read
      entry by entry. */
  lemma ShiftEntries(s: seq<int>, s': seq<int>, col: nat, on: bool, d: int)
    requires |s| == 2 && col < 2
    requires s' == (if on then Shift(s, col, d) else s)
    ensures |s'| == 2
    ensures s'[0] == s[0] + (if on && col == 0 then d else 0)
    ensures s'[1] == s[1] + (if on && col == 1 then d else 0)
  {
  }

  /** `clearPiece`'s counter edits move each counter by minus the weight of
      the piece removed. */
  lemma CountersTaken(pos: Position, r: Position, sq: nat)
    requires WellFormed(pos) && WellFormed(r) && sq < LargeNC && IsPieceValid(pos.board[sq])
    requires CountersMoved(pos, r, pos.board[sq], false)
    ensures CountersShifted(pos, r, sq, EMPTY)
  {
    var p := pos.board[sq];
    EntriesMoved(pos, r, p, false, 0);
    EntriesMoved(pos, r, p, false, 1);
    EmptyWeights(0);
    EmptyWeights(1);
  }

  /** `addPiece`'s counter edits, on an empty square, move each counter by
      the weight of the piece written. */
  lemma CountersPut(pos: Position, r: Position, sq: nat, p: nat)
    requires WellFormed(pos) && WellFormed(r) && sq < LargeNC && IsPieceValid(p)
    requires pos.board[sq] == EMPTY
    requires CountersMoved(pos, r, p, true)
    ensures CountersShifted(pos, r, sq, p)
  {
    EntriesMoved(pos, r, p, true, 0);
    EntriesMoved(pos, r, p, true, 1);
    EmptyWeights(0);
    EmptyWeights(1);
  }

  /** Colour `c`'s counters after `CountersMoved`, as weights. */
  lemma EntriesMoved(pos: Position, r: Position, p: nat, add: bool, c: nat)
    requires WellFormed(pos) && WellFormed(r) && IsPieceValid(p) && c < 2
    requires CountersMoved(pos, r, p, add)
    ensures var sign := if add then 1 else -1;
      && r.material[c] == pos.material[c] + sign * MaterialW(c)(p)
      && r.bigPiece[c] == pos.bigPiece[c] + sign * BigW(c)(p)
      && r.majPiece[c] == pos.majPiece[c] + sign * MajW(c)(p)
      && r.minPiece[c] == pos.minPiece[c] + sign * MinW(c)(p)
  {
    ColourOf(p);
    var col := PieceCol[p];
    var one := if add then 1 else -1;
    PieceWeights(p, c);
    ShiftEntries(pos.material, r.material, col, true, if add then PieceVal[p] else -PieceVal[p]);
    ShiftEntries(pos.bigPiece, r.bigPiece, col, PieceBig[p], one);
    ShiftEntries(pos.majPiece, r.majPiece, col, PieceBig[p] && PieceMaj[p], one);
    ShiftEntries(pos.minPiece, r.minPiece, col, PieceBig[p] && !PieceMaj[p], one);
  }

  /** Moving a piece to an empty square changes no counter. */
  lemma CountersAfterMove(pos: Position, r: Position, from: nat, to: nat)
    requires WellFormed(pos) && WellFormed(r) && from < LargeNC && to < LargeNC
    requires pos.board[to] == EMPTY && from != to
    requires r.board == pos.board[from := EMPTY][to := pos.board[from]]
    requires r.material == pos.material && r.bigPiece == pos.bigPiece
    requires r.majPiece == pos.majPiece && r.minPiece == pos.minPiece
    requires CountersMatch(pos)
    ensures CountersMatch(r)
  {
    var b := pos.board[from := EMPTY];
    var p := pos.board[from];
    forall c | 0 <= c < 2
      ensures r.material[c] == Tally(r.board, LargeNC, MaterialW(c))
      ensures r.bigPiece[c] == Tally(r.board, LargeNC, BigW(c))
      ensures r.majPiece[c] == Tally(r.board, LargeNC, MajW(c))
      ensures r.minPiece[c] == Tally(r.board, LargeNC, MinW(c))
    {
      TallyTwice(pos.board, MaterialW(c), from, to);
      TallyTwice(pos.board, BigW(c), from, to);
      TallyTwice(pos.board, MajW(c), from, to);
      TallyTwice(pos.board, MinW(c), from, to);
    }
  }

  /** Two writes that carry the content of `from` to an empty `to` keep every
      tally whose weight of `EMPTY` is zero. */
  lemma TallyTwice(board: seq<nat>, w: nat -> int, from: nat, to: nat)
    requires |board| == LargeNC && from < LargeNC && to < LargeNC && from != to
    requires board[to] == EMPTY && w(EMPTY) == 0
    ensures Tally(board[from := EMPTY][to := board[from]], LargeNC, w) == Tally(board, LargeNC, w)
  {
    var b := board[from := EMPTY];
    TallyUpdate(board, LargeNC, w, from, EMPTY);
    TallyUpdate(b, LargeNC, w, to, board[from]);
  }

  // ---------------------------------------------------------------------
  // Pawn bitboards
  // ---------------------------------------------------------------------

  /** The three pawn bitboards mark the pawn squares of `board`. */
  predicate PawnBoards(pawns: seq<bv64>, board: seq<nat>)
    requires |pawns| == 3 && |board| == LargeNC
  {
    && PawnBitsMatch(pawns[WHITE], board, wP, wP)
    && PawnBitsMatch(pawns[BLACK], board, bP, bP)
    && PawnBitsMatch(pawns[BOTH], board, wP, bP)
  }

  /** The popcounts of the three bitboards are `w`, `b` and their sum. */
  predicate PawnCounts(pawns: seq<bv64>, w: nat, b: nat)
    requires |pawns| == 3
  {
    CountBit(pawns[WHITE]) == w && CountBit(pawns[BLACK]) == b && CountBit(pawns[BOTH]) == w + b
  }

  lemma PawnsMatchParts(pos: Position)
    requires WellFormed(pos)
    ensures PawnsMatch(pos) <==>
      PawnBoards(pos.pawns, pos.board) && PawnCounts(pos.pawns, pos.pieceNum[wP], pos.pieceNum[bP])
  {
  }

  /** The entries of `Unmark` and `Mark`: the two named boards change, the
      other colour's board does not. */
  lemma MarkEntries(pawns: seq<bv64>, c: nat, k: nat)
    requires |pawns| == 3 && c < 2 && k < 64
    ensures Unmark(pawns, c, k)[c] == ClearBit(pawns[c], k)
    ensures Unmark(pawns, c, k)[1 - c] == pawns[1 - c]
    ensures Unmark(pawns, c, k)[BOTH] == ClearBit(pawns[BOTH], k)
    ensures Mark(pawns, c, k)[c] == SetBit(pawns[c], k)
    ensures Mark(pawns, c, k)[1 - c] == pawns[1 - c]
    ensures Mark(pawns, c, k)[BOTH] == SetBit(pawns[BOTH], k)
  {
  }

  /** Taking a pawn off clears its bit in its colour's board and in the
      board of both colours, and each popcount drops with the pawn. */
  lemma UnmarkPawn(pawns: seq<bv64>, board: seq<nat>, sq: nat, w: nat, b: nat)
    requires |pawns| == 3 && |board| == LargeNC && OnBoard(sq) && IsPawn(board[sq])
    requires PawnBoards(pawns, board) && PawnCounts(pawns, w, b)
    ensures var p := board[sq];
      && w >= (if p == wP then 1 else 0) && b >= (if p == bP then 1 else 0)
      && PieceCol[p] < 2
      && PawnBoards(Unmark(pawns, PieceCol[p], Convert120To64(sq)), board[sq := EMPTY])
      && PawnCounts(Unmark(pawns, PieceCol[p], Convert120To64(sq)),
                    w - (if p == wP then 1 else 0), b - (if p == bP then 1 else 0))
  {
    var p := board[sq];
    PawnColour(p);
    if p == wP {
      UnmarkOne(pawns, board, sq, WHITE, wP, bP);
    } else {
      UnmarkOne(pawns, board, sq, BLACK, bP, wP);
    }
  }

  lemma UnmarkOne(pawns: seq<bv64>, board: seq<nat>, sq: nat, c: nat, p: nat, q: nat)
    requires |pawns| == 3 && |board| == LargeNC && OnBoard(sq)
    requires (c, p, q) == (WHITE, wP, bP) || (c, p, q) == (BLACK, bP, wP)
    requires board[sq] == p && PawnBoards(pawns, board)
    ensures CountBit(pawns[c]) >= 1 && CountBit(pawns[BOTH]) >= 1
    ensures var u := Unmark(pawns, c, Convert120To64(sq));
      && PawnBoards(u, board[sq := EMPTY])
      && CountBit(u[c]) == CountBit(pawns[c]) - 1
      && u[1 - c] == pawns[1 - c]
      && CountBit(u[BOTH]) == CountBit(pawns[BOTH]) - 1
  {
    var k := Convert120To64(sq);
    MarkEntries(pawns, c, k);
    UnmarkBoards(pawns, board, sq, c, p, q);
    PawnBitAt(pawns[c], board, sq, p, p);
    PawnBitAt(pawns[BOTH], board, sq, wP, bP);
    CountBelowClear(pawns[c], k, 64);
    CountBelowClear(pawns[BOTH], k, 64);
  }

  lemma UnmarkBoards(pawns: seq<bv64>, board: seq<nat>, sq: nat, c: nat, p: nat, q: nat)
    requires |pawns| == 3 && |board| == LargeNC && OnBoard(sq)
    requires (c, p, q) == (WHITE, wP, bP) || (c, p, q) == (BLACK, bP, wP)
    requires board[sq] == p && PawnBoards(pawns, board)
    ensures PawnBoards(Unmark(pawns, c, Convert120To64(sq)), board[sq := EMPTY])
  {
    var k := Convert120To64(sq);
    MarkEntries(pawns, c, k);
    PawnBitsClear(pawns[c], board, sq, EMPTY, p, p);
    PawnBitsKeep(pawns[1 - c], board, sq, EMPTY, q, q);
    PawnBitsClear(pawns[BOTH], board, sq, EMPTY, wP, bP);
  }

  /** Putting a pawn on a square without one sets its bit in its colour's
      board and in the board of both colours, and each popcount rises with
      it. */
  lemma MarkPawn(pawns: seq<bv64>, board: seq<nat>, sq: nat, p: nat, w: nat, b: nat)
    requires |pawns| == 3 && |board| == LargeNC && OnBoard(sq) && IsPawn(p) && !IsPawn(board[sq])
    requires PawnBoards(pawns, board) && PawnCounts(pawns, w, b)
    ensures PieceCol[p] < 2
    ensures PawnBoards(Mark(pawns, PieceCol[p], Convert120To64(sq)), board[sq := p])
    ensures PawnCounts(Mark(pawns, PieceCol[p], Convert120To64(sq)),
                       w + (if p == wP then 1 else 0), b + (if p == bP then 1 else 0))
  {
    PawnColour(p);
    if p == wP {
      MarkOne(pawns, board, sq, WHITE, wP, bP);
    } else {
      MarkOne(pawns, board, sq, BLACK, bP, wP);
    }
  }

  lemma MarkOne(pawns: seq<bv64>, board: seq<nat>, sq: nat, c: nat, p: nat, q: nat)
    requires |pawns| == 3 && |board| == LargeNC && OnBoard(sq)
    requires (c, p, q) == (WHITE, wP, bP) || (c, p, q) == (BLACK, bP, wP)
    requires !IsPawn(board[sq]) && PawnBoards(pawns, board)
    ensures var u := Mark(pawns, c, Convert120To64(sq));
      && PawnBoards(u, board[sq := p])
      && CountBit(u[c]) == CountBit(pawns[c]) + 1
      && u[1 - c] == pawns[1 - c]
      && CountBit(u[BOTH]) == CountBit(pawns[BOTH]) + 1
  {
    var k := Convert120To64(sq);
    MarkEntries(pawns, c, k);
    MarkBoards(pawns, board, sq, c, p, q);
    PawnBitAt(pawns[c], board, sq, p, p);
    PawnBitAt(pawns[BOTH], board, sq, wP, bP);
    CountBitSetBit(pawns[c], k);
    CountBitSetBit(pawns[BOTH], k);
  }

  lemma MarkBoards(pawns: seq<bv64>, board: seq<nat>, sq: nat, c: nat, p: nat, q: nat)
    requires |pawns| == 3 && |board| == LargeNC && OnBoard(sq)
    requires (c, p, q) == (WHITE, wP, bP) || (c, p, q) == (BLACK, bP, wP)
    requires !IsPawn(board[sq]) && PawnBoards(pawns, board)
    ensures PawnBoards(Mark(pawns, c, Convert120To64(sq)), board[sq := p])
  {
    var k := Convert120To64(sq);
    MarkEntries(pawns, c, k);
    PawnBitsSet(pawns[c], board, sq, p, p, p);
    PawnBitsKeep(pawns[1 - c], board, sq, p, q, q);
    PawnBitsSet(pawns[BOTH], board, sq, p, wP, bP);
  }

  /** `clearPiece`'s pawn edits keep the pawn bitboards in step with the
      board: a pawn's bit goes, a piece's square was never marked. */
  lemma PawnsAfterTake(pos: Position, r: Position, sq: nat, p: nat)
    requires WellFormed(pos) && WellFormed(r) && OnBoard(sq) && IsPieceValid(p)
    requires PawnsMatch(pos) && pos.board[sq] == p
    requires PieceCol[p] < 2
    requires r.board == pos.board[sq := EMPTY]
    requires r.pieceNum[wP] + (if p == wP then 1 else 0) == pos.pieceNum[wP]
    requires r.pieceNum[bP] + (if p == bP then 1 else 0) == pos.pieceNum[bP]
    requires r.pawns == (if PieceBig[p] then pos.pawns else Unmark(pos.pawns, PieceCol[p], Convert120To64(sq)))
    ensures PawnsMatch(r)
  {
    PawnsMatchParts(pos);
    PawnsMatchParts(r);
    PieceTablesAgree(p);
    if PieceBig[p] {
      KeepPawns(pos.pawns, pos.board, sq, EMPTY);
    } else {
      UnmarkPawn(pos.pawns, pos.board, sq, pos.pieceNum[wP], pos.pieceNum[bP]);
    }
  }

  /** `addPiece`'s pawn edits on an empty square keep the pawn bitboards in
      step with the board. */
  lemma PawnsAfterPut(pos: Position, r: Position, sq: nat, p: nat)
    requires WellFormed(pos) && WellFormed(r) && OnBoard(sq) && IsPieceValid(p)
    requires PawnsMatch(pos) && pos.board[sq] == EMPTY
    requires PieceCol[p] < 2
    requires r.board == pos.board[sq := p]
    requires r.pieceNum[wP] == pos.pieceNum[wP] + (if p == wP then 1 else 0)
    requires r.pieceNum[bP] == pos.pieceNum[bP] + (if p == bP then 1 else 0)
    requires r.pawns == (if PieceBig[p] then pos.pawns else Mark(pos.pawns, PieceCol[p], Convert120To64(sq)))
    ensures PawnsMatch(r)
  {
    PawnsMatchParts(pos);
    PawnsMatchParts(r);
    PawnsPut(pos.pawns, pos.board, sq, p, pos.pieceNum[wP], pos.pieceNum[bP], r.pawns);
  }

  /** The bitboard part of `PawnsAfterPut`. */
  lemma PawnsPut(pawns: seq<bv64>, board: seq<nat>, sq: nat, p: nat, w: nat, b: nat, after: seq<bv64>)
    requires |pawns| == 3 && |board| == LargeNC && OnBoard(sq) && 1 <= p <= 12 && board[sq] == EMPTY
    requires PawnBoards(pawns, board) && PawnCounts(pawns, w, b) && PieceCol[p] < 2
    requires after == (if PieceBig[p] then pawns else Mark(pawns, PieceCol[p], Convert120To64(sq)))
    ensures |after| == 3
    ensures PawnBoards(after, board[sq := p])
    ensures PawnCounts(after, w + (if p == wP then 1 else 0), b + (if p == bP then 1 else 0))
  {
    PieceTablesAgree(p);
    if PieceBig[p] {
      KeepPawns(pawns, board, sq, p);
    } else {
      MarkPawn(pawns, board, sq, p, w, b);
    }
  }


  /** `movePiece`'s pawn edits, onto an empty square, keep the pawn
      bitboards in step with the board. */
  lemma PawnsAfterShift(pos: Position, r: Position, from: nat, to: nat, p: nat)
    requires WellFormed(pos) && WellFormed(r) && OnBoard(from) && OnBoard(to)
    requires IsPieceValid(p) && pos.board[from] == p && pos.board[to] == EMPTY
    requires PawnsMatch(pos) && PieceCol[p] < 2 && pos.pieceNum[p] >= 1
    requires r.board == pos.board[from := EMPTY][to := p]
    requires r.pieceNum == pos.pieceNum
    requires r.pawns == (if PieceBig[p] then pos.pawns
                         else Mark(Unmark(pos.pawns, PieceCol[p], Convert120To64(from)), PieceCol[p], Convert120To64(to)))
    ensures PawnsMatch(r)
  {
    var mid := Halfway(pos, from, p);
    HalfwayPawns(pos, from, p);
    PawnsAfterPut(mid, r, to, p);
  }

  /** The position halfway through `movePiece`: the piece lifted off
      `from`, its pawn bit cleared and its count lowered. */
  function Halfway(pos: Position, from: nat, p: nat): (mid: Position)
    requires WellFormed(pos) && OnBoard(from) && IsPieceValid(p) && pos.board[from] == p
    requires PieceCol[p] < 2 && pos.pieceNum[p] >= 1
    ensures WellFormed(mid) && mid.board == pos.board[from := EMPTY]
    ensures mid.pawns == if PieceBig[p] then pos.pawns else Unmark(pos.pawns, PieceCol[p], Convert120To64(from))
    ensures mid.pieceNum[wP] + (if p == wP then 1 else 0) == pos.pieceNum[wP]
    ensures mid.pieceNum[bP] + (if p == bP then 1 else 0) == pos.pieceNum[bP]
  {
    FramedUpdate(pos.board, from, EMPTY);
    CountsOkAfter(pos.pieceNum, p, pos.pieceNum[p] - 1);
    var u := if PieceBig[p] then pos.pawns else Unmark(pos.pawns, PieceCol[p], Convert120To64(from));
    var mid := pos.(board := pos.board[from := EMPTY], pawns := u, pieceNum := pos.pieceNum[p := pos.pieceNum[p] - 1]);
    WellFormedOf(pos, mid);
    mid
  }

  lemma HalfwayPawns(pos: Position, from: nat, p: nat)
    requires WellFormed(pos) && OnBoard(from) && IsPieceValid(p) && pos.board[from] == p
    requires PieceCol[p] < 2 && pos.pieceNum[p] >= 1 && PawnsMatch(pos)
    ensures PawnsMatch(Halfway(pos, from, p))
  {
    PawnsAfterTake(pos, Halfway(pos, from, p), from, p);
  }



  /** A write that neither removes nor adds a pawn keeps all three boards. */
  lemma KeepPawns(pawns: seq<bv64>, board: seq<nat>, sq: nat, v: nat)
    requires |pawns| == 3 && |board| == LargeNC && OnBoard(sq)
    requires !IsPawn(board[sq]) && !IsPawn(v)
    requires PawnBoards(pawns, board)
    ensures PawnBoards(pawns, board[sq := v])
  {
    PawnBitsKeep(pawns[WHITE], board, sq, v, wP, wP);
    PawnBitsKeep(pawns[BLACK], board, sq, v, bP, bP);
    PawnBitsKeep(pawns[BOTH], board, sq, v, wP, bP);
  }

  // ---------------------------------------------------------------------
  // Piece lists
  // ---------------------------------------------------------------------

  /** The lists after `clearPiece`'s swap-with-last removal of `sq`. */
  lemma ListsAfterTake(pos: Position, r: Position, sq: nat)
    requires WellFormed(pos) && WellFormed(r) && sq < LargeNC && IsPieceValid(pos.board[sq])
    requires ListsMatch(pos)
    requires var p := pos.board[sq]; var n := pos.pieceNum[p];
      && n >= 1 && sq in pos.pieceList[p]
      && r.board == pos.board[sq := EMPTY]
      && r.pieceNum == pos.pieceNum[p := n - 1]
      && r.pieceList == Place(pos.pieceList, p, FindSlot(pos.pieceList[p], sq), pos.pieceList[p][n - 1])
    ensures ListsMatch(r)
  {
    var p := pos.board[sq];
    var n := pos.pieceNum[p];
    PlaceOk(pos.pieceList, p, FindSlot(pos.pieceList[p], sq), pos.pieceList[p][n - 1]);
    forall q | wP <= q <= bK
      ensures ListMatches(r, q)
    {
      assert ListMatches(pos, q);
      if q == p {
        AgreesAfterRemove(pos.pieceList[p], n, pos.board, p, sq, EMPTY);
        TallyUpdate(pos.board, LargeNC, CountW(p), sq, EMPTY);
      } else {
        ListAfterOtherWrite(pos, r, q, sq, EMPTY);
      }
    }
  }

  /** The lists after `addPiece`'s append of `sq` to the list of `p`. */
  lemma ListsAfterPut(pos: Position, r: Position, sq: nat, p: nat)
    requires WellFormed(pos) && WellFormed(r) && sq < LargeNC && IsPieceValid(p)
    requires ListsMatch(pos) && pos.board[sq] == EMPTY
    requires var n := pos.pieceNum[p];
      && n < 10
      && r.board == pos.board[sq := p]
      && r.pieceNum == pos.pieceNum[p := n + 1]
      && r.pieceList == Place(pos.pieceList, p, n, sq)
    ensures ListsMatch(r)
  {
    var n := pos.pieceNum[p];
    PlaceOk(pos.pieceList, p, n, sq);
    forall q | wP <= q <= bK
      ensures ListMatches(r, q)
    {
      assert ListMatches(pos, q);
      if q == p {
        AgreesAfterAppend(pos.pieceList[p], n, pos.board, p, sq);
        TallyUpdate(pos.board, LargeNC, CountW(p), sq, p);
      } else {
        ListAfterOtherWrite(pos, r, q, sq, p);
      }
    }
  }

  /** The lists after `movePiece`'s in-place rename of `from` to `to`. */
  lemma ListsAfterRename(pos: Position, r: Position, from: nat, to: nat)
    requires WellFormed(pos) && WellFormed(r) && from < LargeNC && to < LargeNC
    requires IsPieceValid(pos.board[from]) && pos.board[to] == EMPTY
    requires ListsMatch(pos)
    requires var p := pos.board[from];
      && from in pos.pieceList[p]
      && r.board == pos.board[from := EMPTY][to := p]
      && r.pieceNum == pos.pieceNum
      && r.pieceList == Place(pos.pieceList, p, FindSlot(pos.pieceList[p], from), to)
    ensures ListsMatch(r)
  {
    var p := pos.board[from];
    PlaceOk(pos.pieceList, p, FindSlot(pos.pieceList[p], from), to);
    forall q | wP <= q <= bK
      ensures ListMatches(r, q)
    {
      assert ListMatches(pos, q);
      if q == p {
        AgreesAfterRename(pos.pieceList[p], pos.pieceNum[p], pos.board, p, from, to);
        TallyTwice(pos.board, CountW(p), from, to);
      } else {
        ListAfterTwoOtherWrites(pos, r, q, from, to);
      }
    }
  }

  /** Moving a piece other than `q` keeps `q`'s list matching. */
  lemma ListAfterTwoOtherWrites(pos: Position, r: Position, q: nat, from: nat, to: nat)
    requires WellFormed(pos) && WellFormed(r) && wP <= q <= bK && from < LargeNC && to < LargeNC
    requires pos.board[from] != q && pos.board[to] == EMPTY && from != to
    requires r.board == pos.board[from := EMPTY][to := pos.board[from]]
    requires r.pieceList[q] == pos.pieceList[q] && r.pieceNum[q] == pos.pieceNum[q]
    requires ListMatches(pos, q)
    ensures ListMatches(r, q)
  {
    var b := pos.board[from := EMPTY];
    var list, n := pos.pieceList[q], pos.pieceNum[q];
    assert ListAgrees(list, n, pos.board, q);
    AgreesAfterOtherWrite(list, n, pos.board, q, from, EMPTY);
    AgreesAfterOtherWrite(list, n, b, q, to, pos.board[from]);
    TallyTwice(pos.board, CountW(q), from, to);
  }

  // ---------------------------------------------------------------------
  // Undoing an edit
  // ---------------------------------------------------------------------

  /** A square that does not hold `p` is not among `p`'s live slots; one that
      does is, in a slot below the count. */
  lemma LiveIffHolds(pos: Position, p: nat, sq: nat)
    requires WellFormed(pos) && wP <= p <= bK && ListMatches(pos, p) && sq < LargeNC
    ensures sq in Live(pos, p) <==> pos.board[sq] == p
  {
    var list, n := pos.pieceList[p], pos.pieceNum[p];
    assert ListAgrees(list, n, pos.board, p);
    forall k | 0 <= k < n
      ensures list[..n][k] == list[k] && pos.board[list[k]] == p
    {
    }
  }

  /** Writing `sq` into slot `i` when no earlier slot holds it: the search
      for `sq` then stops at `i`. */
  lemma FindSlotAt(list: seq<nat>, i: nat, sq: nat)
    requires i < |list| && sq !in list[..i]
    ensures sq in list[i := sq] && FindSlot(list[i := sq], sq) == i
  {
    assert list[i := sq][i] == sq;
  }

  /** Adding a piece's weights and taking them off again restores the
      counters. */
  lemma CountersBack(pos: Position, r: Position, r2: Position, p: nat)
    requires WellFormed(pos) && WellFormed(r) && IsPieceValid(p)
    requires CountersMoved(pos, r, p, true) && CountersMoved(r, r2, p, false)
    ensures r2.material == pos.material && r2.bigPiece == pos.bigPiece
    ensures r2.majPiece == pos.majPiece && r2.minPiece == pos.minPiece
  {
  }

  /** Setting a clear bit and clearing it again restores the bitboards. */
  lemma PawnsBack(pawns: seq<bv64>, c: nat, k: nat)
    requires |pawns| == 3 && c < 2 && k < 64
    requires !IsSet(pawns[c], k) && !IsSet(pawns[BOTH], k)
    ensures Unmark(Mark(pawns, c, k), c, k) == pawns
  {
    var m := Mark(pawns, c, k);
    MarkEntries(pawns, c, k);
    MarkEntries(m, c, k);
    ClearSetBit(pawns[c], k);
    ClearSetBit(pawns[BOTH], k);
    var u := Unmark(m, c, k);
    assert u[c] == pawns[c] && u[1 - c] == pawns[1 - c] && u[BOTH] == pawns[BOTH];
  }

  /** Clearing a set bit and setting it again restores the bitboards. */
  lemma PawnsRestore(pawns: seq<bv64>, c: nat, k: nat)
    requires |pawns| == 3 && c < 2 && k < 64
    requires IsSet(pawns[c], k) && IsSet(pawns[BOTH], k)
    ensures Mark(Unmark(pawns, c, k), c, k) == pawns
  {
    var u := Unmark(pawns, c, k);
    MarkEntries(pawns, c, k);
    MarkEntries(u, c, k);
    SetClearBit(pawns[c], k);
    SetClearBit(pawns[BOTH], k);
    var m := Mark(u, c, k);
    assert m[c] == pawns[c] && m[1 - c] == pawns[1 - c] && m[BOTH] == pawns[BOTH];
  }

  /** The three pawn bits of a square: set exactly when it holds a pawn. */
  lemma PawnBitsOf(pos: Position, sq: nat)
    requires WellFormed(pos) && PawnsMatch(pos) && OnBoard(sq)
    ensures var k := Convert120To64(sq);
      && (IsSet(pos.pawns[WHITE], k) <==> pos.board[sq] == wP)
      && (IsSet(pos.pawns[BLACK], k) <==> pos.board[sq] == bP)
      && (IsSet(pos.pawns[BOTH], k) <==> IsPawn(pos.board[sq]))
  {
    PawnsMatchParts(pos);
    PawnBitAt(pos.pawns[WHITE], pos.board, sq, wP, wP);
    PawnBitAt(pos.pawns[BLACK], pos.board, sq, bP, bP);
    PawnBitAt(pos.pawns[BOTH], pos.board, sq, wP, bP);
  }

  /** `addPiece` then `clearPiece` on a square without a pawn gives back the
      pawn bitboards. */
  lemma PawnsAddBack(pos: Position, r: Position, r2: Position, sq: nat, p: nat)
    requires WellFormed(pos) && PawnsMatch(pos) && OnBoard(sq) && pos.board[sq] == EMPTY
    requires IsPieceValid(p) && PieceCol[p] < 2
    requires r.pawns == (if PieceBig[p] then pos.pawns else Mark(pos.pawns, PieceCol[p], Convert120To64(sq)))
    requires |r.pawns| == 3
    requires r2.pawns == (if PieceBig[p] then r.pawns else Unmark(r.pawns, PieceCol[p], Convert120To64(sq)))
    ensures r2.pawns == pos.pawns
  {
    if !PieceBig[p] {
      var c, k := PieceCol[p], Convert120To64(sq);
      PawnBitsOf(pos, sq);
      assert !IsSet(pos.pawns[c], k) && !IsSet(pos.pawns[BOTH], k) by {
        assert c == WHITE || c == BLACK;
      }
      PawnsBack(pos.pawns, c, k);
    }
  }

  /** `movePiece` there and back gives back the pawn bitboards. */
  lemma PawnsMoveBack(pos: Position, r: Position, r2: Position, from: nat, to: nat, p: nat)
    requires WellFormed(pos) && PawnsMatch(pos) && OnBoard(from) && OnBoard(to)
    requires IsPieceValid(p) && pos.board[from] == p && pos.board[to] == EMPTY && PieceCol[p] < 2
    requires r.pawns == (if PieceBig[p] then pos.pawns
                         else Mark(Unmark(pos.pawns, PieceCol[p], Convert120To64(from)), PieceCol[p], Convert120To64(to)))
    requires |r.pawns| == 3
    requires r2.pawns == (if PieceBig[p] then r.pawns
                          else Mark(Unmark(r.pawns, PieceCol[p], Convert120To64(to)), PieceCol[p], Convert120To64(from)))
    ensures r2.pawns == pos.pawns
  {
    if !PieceBig[p] {
      var c, kf, kt := PieceCol[p], Convert120To64(from), Convert120To64(to);
      PieceTablesAgree(p);
      PawnColour(p);
      PawnBitsOf(pos, from);
      PawnBitsOf(pos, to);
      var u := Unmark(pos.pawns, c, kf);
      MarkEntries(pos.pawns, c, kf);
      ClearBitBits(pos.pawns[c], kf, kt);
      ClearBitBits(pos.pawns[BOTH], kf, kt);
      PawnsBack(u, c, kt);
      PawnsRestore(pos.pawns, c, kf);
    }
  }

  /** `addPiece` then `clearPiece` on an empty square gives back the counts
      and the live lists; only the stale slot just past `p`'s count keeps
      the square. */
  lemma ListsAddBack(pos: Position, r: Position, r2: Position, sq: nat, p: nat)
    requires WellFormed(pos) && WellFormed(r) && IsPieceValid(p) && sq < LargeNC
    requires ListMatches(pos, p) && pos.board[sq] == EMPTY && pos.pieceNum[p] < 10
    requires r.pieceList == Place(pos.pieceList, p, pos.pieceNum[p], sq)
    requires r.pieceNum == pos.pieceNum[p := pos.pieceNum[p] + 1]
    requires sq in r.pieceList[p]
    requires r2.pieceNum == r.pieceNum[p := r.pieceNum[p] - 1]
    requires r2.pieceList == Place(r.pieceList, p, FindSlot(r.pieceList[p], sq), r.pieceList[p][r.pieceNum[p] - 1])
    ensures r2.pieceNum == pos.pieceNum
    ensures r2.pieceList == Place(pos.pieceList, p, pos.pieceNum[p], sq)
  {
    var n := pos.pieceNum[p];
    LiveIffHolds(pos, p, sq);
    PlaceOk(pos.pieceList, p, n, sq);
    FindSlotAt(pos.pieceList[p], n, sq);
    PlaceTwice(pos.pieceList, p, n, sq);
  }

  /** `movePiece` there and back gives back the piece lists. */
  lemma ListsMoveBack(pos: Position, r: Position, r2: Position, from: nat, to: nat, p: nat)
    requires WellFormed(pos) && IsPieceValid(p) && from < LargeNC && to < LargeNC
    requires ListMatches(pos, p) && pos.board[from] == p && pos.board[to] == EMPTY
    requires from in pos.pieceList[p]
    requires r.pieceList == Place(pos.pieceList, p, FindSlot(pos.pieceList[p], from), to)
    requires |r.pieceList| == 13 && to in r.pieceList[p]
    requires r2.pieceList == Place(r.pieceList, p, FindSlot(r.pieceList[p], to), from)
    ensures r2.pieceList == pos.pieceList
  {
    var list, n := pos.pieceList[p], pos.pieceNum[p];
    LiveIffHolds(pos, p, from);
    LiveIffHolds(pos, p, to);
    FindSlotLive(list, n, from);
    var i := FindSlot(list, from);
    PlaceOk(pos.pieceList, p, i, to);
    assert to !in list[..i] by {
      assert list[..i] == list[..n][..i];
    }
    FindSlotAt(list, i, to);
    PlaceBack(pos.pieceList, p, i, to);
  }

  /** Writing the same slot twice is writing it once. */
  lemma PlaceTwice(lists: seq<seq<nat>>, p: nat, i: nat, sq: nat)
    requires SlotsOk(lists) && p < 13 && i < 10 && sq < LargeNC
    ensures |Place(lists, p, i, sq)| == 13 && |Place(lists, p, i, sq)[p]| == 10
    ensures Place(Place(lists, p, i, sq), p, i, sq) == Place(lists, p, i, sq)
  {
    PlaceOk(lists, p, i, sq);
    var l := Place(lists, p, i, sq);
    var again: seq<nat> := l[p][i := sq];
    assert again == l[p];
    assert Place(l, p, i, sq) == l[p := again];
  }

  /** Renaming a slot and renaming it back restores the lists. */
  lemma PlaceBack(lists: seq<seq<nat>>, p: nat, i: nat, sq: nat)
    requires SlotsOk(lists) && p < 13 && i < 10 && sq < LargeNC
    ensures |Place(lists, p, i, sq)| == 13 && |Place(lists, p, i, sq)[p]| == 10
    ensures Place(Place(lists, p, i, sq), p, i, lists[p][i]) == lists
  {
    PlaceOk(lists, p, i, sq);
    var l := Place(lists, p, i, sq);
    var back: seq<nat> := l[p][i := lists[p][i]];
    assert back == lists[p];
    assert Place(l, p, i, lists[p][i]) == l[p := back];
    assert forall q :: 0 <= q < 13 ==> l[p := back][q] == lists[q];
  }

  /** Two positions that agree field by field are equal. */
  lemma SameFields(a: Position, b: Position)
    requires a.board == b.board && a.pawns == b.pawns && a.posKey == b.posKey
    requires a.pieceNum == b.pieceNum && a.pieceList == b.pieceList
    requires a.material == b.material && a.bigPiece == b.bigPiece
    requires a.majPiece == b.majPiece && a.minPiece == b.minPiece
    requires SameRest(a, b)
    ensures a == b
  {
  }

  /** Writing a cell and writing its old value back restores the board. */
  lemma WriteBack(board: seq<nat>, sq: nat, v: nat)
    requires sq < |board|
    ensures board[sq := v][sq := board[sq]] == board
  {
  }

  /** Moving a cell's value to an empty cell and back restores the board. */
  lemma MoveCellBack(board: seq<nat>, from: nat, to: nat)
    requires from < |board| && to < |board| && board[to] == EMPTY && from != to
    ensures board[from := EMPTY][to := board[from]][to := EMPTY][from := board[from]] == board
  {
    var b := board[from := EMPTY][to := board[from]][to := EMPTY][from := board[from]];
    assert forall k :: 0 <= k < |board| ==> b[k] == board[k];
  }
}
