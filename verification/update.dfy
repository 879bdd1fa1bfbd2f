/** `update` of src/board.cpp: the pass over the 120 cells that rebuilds the
    piece lists, the piece counts, the pawn bitboards, the material and
    big/major/minor counters and the king squares from the board. The pass
    adds to whatever the fields hold, so it is meant to follow `reset`; from
    that state the position it leaves is consistent, every list is in
    ascending square order and each king square is the last cell holding
    that king. */
module Update {
  import opened Constants
  import opened Bitboard
  import opened ConstantsH
  import opened Ranges
  import opened Board
  import opened Cells
  import opened Steps
  import opened Counting

  // ---------------------------------------------------------------------
  // The pass
  // ---------------------------------------------------------------------

  /** The array sizes the pass indexes: a framed board, three bitboards, two
      king squares, two of each counter, thirteen counts and thirteen
      ten-slot lists. */
  predicate Shaped(pos: Position) {
    && Framed(pos.board)
    && |pos.pawns| == 3
    && |pos.kings| == 2 && pos.kings[WHITE] < LargeNC && pos.kings[BLACK] < LargeNC
    && |pos.bigPiece| == 2 && |pos.majPiece| == 2 && |pos.minPiece| == 2
    && |pos.material| == 2
    && |pos.pieceNum| == 13
    && SlotsOk(pos.pieceList)
  }

  /** Each list has room for the pieces of its kind on the cells from `n` on:
      the pass appends one entry per such cell, and a list has ten slots. */
  predicate Room(pos: Position, n: nat)
    requires Shaped(pos) && n <= LargeNC
  {
    forall p :: wP <= p <= bK ==>
      pos.pieceNum[p] + Count(pos.board, p) - Tally(pos.board, n, CountW(p)) <= 10
  }

  /** A cell that holds neither `EMPTY` nor `OFFBOARD` is a square holding a
      piece of one of the two colours. */
  lemma Occupied(b: seq<nat>, i: nat)
    requires Framed(b) && i < LargeNC && b[i] != EMPTY && b[i] != OFFBOARD
    ensures OnBoard(i) && IsPieceValid(b[i]) && PieceCol[b[i]] < 2
  {
    assert CellOk(i, b[i]);
    ColourOf(b[i]);
  }

  /** The body of the loop at cell `i`. */
  function Visit(pos: Position, i: nat): (r: Position)
    requires Shaped(pos) && i < LargeNC
    requires IsPieceValid(pos.board[i]) ==> pos.pieceNum[pos.board[i]] < 10
    ensures Shaped(r) && r.board == pos.board
    ensures r.(pawns := pos.pawns, kings := pos.kings, bigPiece := pos.bigPiece,
               majPiece := pos.majPiece, minPiece := pos.minPiece, material := pos.material,
               pieceNum := pos.pieceNum, pieceList := pos.pieceList) == pos
  {
    var piece := pos.board[i];
    if piece == OFFBOARD || piece == EMPTY then pos
    else
      Occupied(pos.board, i);
      var col := PieceCol[piece];
      var n: nat := pos.pieceNum[piece];
      var pawn := piece == wP || piece == bP;
      PlaceOk(pos.pieceList, piece, n, i);
      pos.(
        pawns := if pawn then Mark(pos.pawns, col, Convert120To64(i)) else pos.pawns,
        bigPiece := if pawn then pos.bigPiece else Shift(pos.bigPiece, col, 1),
        minPiece := if PieceMin[piece] then Shift(pos.minPiece, col, 1) else pos.minPiece,
        majPiece := if !PieceMin[piece] && PieceMaj[piece] then Shift(pos.majPiece, col, 1) else pos.majPiece,
        kings := if piece == wK then pos.kings[WHITE := i]
                 else if piece == bK then pos.kings[BLACK := i]
                 else pos.kings,
        material := Shift(pos.material, col, PieceVal[piece]),
        pieceList := Place(pos.pieceList, piece, n, i),
        pieceNum := pos.pieceNum[piece := n + 1])
  }

  /** The loop from cell `i` to the last cell. */
  function Scan(pos: Position, i: nat): (r: Position)
    requires Shaped(pos) && i <= LargeNC && Room(pos, i)
    ensures Shaped(r) && r.board == pos.board
    ensures r.(pawns := pos.pawns, kings := pos.kings, bigPiece := pos.bigPiece,
               majPiece := pos.majPiece, minPiece := pos.minPiece, material := pos.material,
               pieceNum := pos.pieceNum, pieceList := pos.pieceList) == pos
    decreases LargeNC - i
  {
    if i == LargeNC then pos
    else
      RoomAt(pos, i);
      Scan(Visit(pos, i), i + 1)
  }

  /** `update`. The source writes past the end of a piece list when a board
      holds more than ten pieces of a kind; the precondition rules that out. */
  function Update(pos: Position): (r: Position)
    requires Shaped(pos) && Room(pos, 0)
    ensures Shaped(r) && r.board == pos.board
    ensures r.(pawns := pos.pawns, kings := pos.kings, bigPiece := pos.bigPiece,
               majPiece := pos.majPiece, minPiece := pos.minPiece, material := pos.material,
               pieceNum := pos.pieceNum, pieceList := pos.pieceList) == pos
  {
    Scan(pos, 0)
  }

  // ---------------------------------------------------------------------
  // Room
  // ---------------------------------------------------------------------

  /** A count over a longer prefix is no smaller. */
  lemma {:induction false} TallyGrows(b: seq<nat>, p: nat, n: nat, m: nat)
    requires n <= m <= |b|
    ensures Tally(b, n, CountW(p)) <= Tally(b, m, CountW(p))
  {
    if n < m {
      TallyGrows(b, p, n, m - 1);
    }
  }

  /** The piece at cell `i` has room in its list, and one pass keeps room for
      the cells after it. */
  lemma RoomAt(pos: Position, i: nat)
    requires Shaped(pos) && i < LargeNC && Room(pos, i)
    ensures IsPieceValid(pos.board[i]) ==> pos.pieceNum[pos.board[i]] < 10
    ensures Room(Visit(pos, i), i + 1)
  {
    var b := pos.board;
    if IsPieceValid(b[i]) {
      TallyGrows(b, b[i], i + 1, LargeNC);
    }
    var r := Visit(pos, i);
    forall p | wP <= p <= bK
      ensures r.pieceNum[p] + Count(b, p) - Tally(b, i + 1, CountW(p)) <= 10
    {
      TallyGrows(b, p, i + 1, LargeNC);
    }
  }

  // ---------------------------------------------------------------------
  // The part of the board the pass has read
  // ---------------------------------------------------------------------

  /** The board as the fields see it after the pass has read the cells below
      `n`: those cells as they are, the rest as `reset` leaves them. */
  function Seen(b: seq<nat>, n: nat): (r: seq<nat>)
    requires |b| == LargeNC && n <= LargeNC
    ensures |r| == LargeNC
  {
    seq(LargeNC, i requires 0 <= i < LargeNC => if i < n then b[i] else if OnBoard(i) then EMPTY else OFFBOARD)
  }

  lemma SeenFramed(b: seq<nat>, n: nat)
    requires Framed(b) && n <= LargeNC
    ensures Framed(Seen(b, n))
  {
    var s := Seen(b, n);
    forall sq | 0 <= sq < LargeNC
      ensures CellOk(sq, s[sq])
    {
      assert CellOk(sq, b[sq]);
    }
  }

  /** Nothing read: the empty board. */
  lemma SeenNone(b: seq<nat>)
    requires |b| == LargeNC
    ensures Seen(b, 0) == EmptyBoard
  {
    forall sq | 0 <= sq < LargeNC
      ensures Seen(b, 0)[sq] == EmptyBoard[sq]
    {
      EmptyBoardAt(sq);
    }
    EmptyBoardAt(0);
  }

  /** Everything read: the board itself. */
  lemma SeenAll(b: seq<nat>)
    requires |b| == LargeNC
    ensures Seen(b, LargeNC) == b
  {
  }

  /** Reading cell `n` writes its content over what `reset` left there. */
  lemma SeenStep(b: seq<nat>, n: nat)
    requires Framed(b) && n < LargeNC
    ensures Seen(b, n)[n] == (if OnBoard(n) then EMPTY else OFFBOARD)
    ensures Seen(b, n + 1) == Seen(b, n)[n := b[n]]
    ensures b[n] == EMPTY || b[n] == OFFBOARD ==> Seen(b, n + 1) == Seen(b, n)
  {
    assert CellOk(n, b[n]);
    assert Seen(b, n + 1) == Seen(b, n)[n := b[n]];
  }

  // ---------------------------------------------------------------------
  // The loop invariant
  // ---------------------------------------------------------------------

  /** The fields of `pos` with the board as read up to `n`. */
  function At(pos: Position, n: nat): (r: Position)
    requires |pos.board| == LargeNC && n <= LargeNC
    ensures r.board == Seen(pos.board, n)
  {
    pos.(board := Seen(pos.board, n))
  }

  /** `k` is the last cell below `n` holding `v`; when no cell below `n`
      holds `v`, `k` is `k0`. */
  predicate LastSeen(b: seq<nat>, n: nat, v: nat, k: nat, k0: nat)
    requires n <= |b|
  {
    if exists sq :: 0 <= sq < n && b[sq] == v then
      k < n && b[k] == v && forall sq :: k < sq < n ==> b[sq] != v
    else
      k == k0
  }

  /** Each list holds the squares below `n` of its piece, in ascending order. */
  predicate Ordered(pos: Position, n: nat)
    requires Shaped(pos) && n <= LargeNC
  {
    forall p :: wP <= p <= bK ==>
      pos.pieceNum[p] <= 10 && pos.pieceList[p][..pos.pieceNum[p]] == SquaresOf(pos.board, p, n)
  }

  /** Each king square is the last cell below `n` holding that king. */
  predicate KingsSeen(pos: Position, n: nat, kings0: seq<nat>)
    requires Shaped(pos) && n <= LargeNC && |kings0| == 2
  {
    && LastSeen(pos.board, n, wK, pos.kings[WHITE], kings0[WHITE])
    && LastSeen(pos.board, n, bK, pos.kings[BLACK], kings0[BLACK])
  }

  /** After reading the cells below `n`: the fields agree with the board as
      read, each list holds the squares of its piece in ascending order, and
      each king square is the last cell read holding that king. */
  predicate Scanned(pos: Position, n: nat, kings0: seq<nat>)
    requires |kings0| == 2
  {
    && Shaped(pos) && n <= LargeNC && Room(pos, n)
    && Consistent(At(pos, n))
    && Ordered(pos, n)
    && KingsSeen(pos, n, kings0)
  }

  /** The counters `reset` leaves: nothing counted, nothing marked. */
  predicate Blank(pos: Position) {
    && pos.pawns == [0, 0, 0]
    && pos.bigPiece == [0, 0] && pos.majPiece == [0, 0] && pos.minPiece == [0, 0]
    && pos.material == [0, 0]
    && pos.pieceNum == seq(13, _ => 0)
  }

  /** Before the first cell the reset state is the invariant. */
  lemma ScannedStart(pos: Position)
    requires WellFormed(pos) && Blank(pos) && Capacity(pos.board)
    ensures Scanned(pos, 0, pos.kings)
  {
    StartConsistent(pos);
    StartRest(pos);
  }

  lemma StartConsistent(pos: Position)
    requires WellFormed(pos) && Blank(pos)
    ensures Consistent(At(pos, 0))
  {
    StartWellFormed(pos);
    var a := At(pos, 0);
    StartLists(a);
    StartPawns(a);
    forall c | 0 <= c < 2 {
      EmptyBoardTallies(c);
    }
    StartCounters(a);
  }

  lemma StartRest(pos: Position)
    requires WellFormed(pos) && Blank(pos) && Capacity(pos.board)
    ensures Shaped(pos) && Room(pos, 0) && Ordered(pos, 0) && KingsSeen(pos, 0, pos.kings)
  {
  }

  lemma StartWellFormed(pos: Position)
    requires WellFormed(pos) && Blank(pos)
    ensures WellFormed(At(pos, 0)) && At(pos, 0).board == EmptyBoard
  {
    SeenNone(pos.board);
    SeenFramed(pos.board, 0);
  }

  lemma StartLists(a: Position)
    requires WellFormed(a) && Blank(a) && a.board == EmptyBoard
    ensures ListsMatch(a)
  {
    forall p | wP <= p <= bK
      ensures ListMatches(a, p)
    {
      TallyEmptyBoard(CountW(p), LargeNC);
      forall sq | 0 <= sq < LargeNC
        ensures a.board[sq] != p
      {
        EmptyBoardAt(sq);
      }
    }
  }

  lemma StartPawns(a: Position)
    requires WellFormed(a) && Blank(a) && a.board == EmptyBoard
    ensures PawnsMatch(a)
  {
    forall j | 0 <= j < RegularNC
      ensures a.board[Convert64To120(j)] == EMPTY
    {
      EmptyBoardAt(Convert64To120(j));
    }
    assert !IsSet(0, 0);
    CountBitPopBit(0);
  }

  lemma StartCounters(a: Position)
    requires WellFormed(a)
    requires a.bigPiece == [0, 0] && a.majPiece == [0, 0] && a.minPiece == [0, 0] && a.material == [0, 0]
    requires forall c :: 0 <= c < 2 ==>
      && Tally(a.board, LargeNC, MaterialW(c)) == 0 && Tally(a.board, LargeNC, BigW(c)) == 0
      && Tally(a.board, LargeNC, MajW(c)) == 0 && Tally(a.board, LargeNC, MinW(c)) == 0
    ensures CountersMatch(a)
  {
  }

  /** The pass's big/major/minor and bitboard branches are `addPiece`'s: a
      piece is big exactly when it is not a pawn, and a big piece is minor
      exactly when it is not major. */
  lemma Branches(p: nat)
    requires IsPieceValid(p)
    ensures PieceBig[p] <==> !(p == wP || p == bP)
    ensures PieceMin[p] <==> PieceBig[p] && !PieceMaj[p]
    ensures !PieceMin[p] && PieceMaj[p] <==> PieceBig[p] && PieceMaj[p]
  {
    PieceTablesAgree(p);
  }

  /** `r` is `a` after `addPiece(sq, p)`, field by field, except that the
      king squares may have moved: first the board, the scalars, the counts
      and the lists, ... */
  predicate AddedShape(a: Position, r: Position, sq: nat, p: nat)
    requires WellFormed(a) && OnBoard(sq) && IsPieceValid(p) && a.pieceNum[p] < 10
  {
    && r.board == a.board[sq := p]
    && r.side == a.side && r.enPas == a.enPas && r.castlePerm == a.castlePerm
    && r.fiftyMove == a.fiftyMove
    && |r.kings| == 2 && r.kings[WHITE] < LargeNC && r.kings[BLACK] < LargeNC
    && r.pieceNum == a.pieceNum[p := a.pieceNum[p] + 1]
    && r.pieceList == Place(a.pieceList, p, a.pieceNum[p], sq)
    && |r.pawns| == 3
    && |r.material| == 2 && |r.bigPiece| == 2 && |r.majPiece| == 2 && |r.minPiece| == 2
  }

  /** ... then the bitboards and the counters. */
  predicate AddedFields(a: Position, r: Position, sq: nat, p: nat)
    requires WellFormed(a) && OnBoard(sq) && IsPieceValid(p)
  {
    ColourOf(p);
    && r.pawns == (if PieceBig[p] then a.pawns else Mark(a.pawns, PieceCol[p], Convert120To64(sq)))
    && CountersMoved(a, r, p, true)
  }

  lemma AddedWellFormed(a: Position, r: Position, sq: nat, p: nat)
    requires WellFormed(a) && OnBoard(sq) && IsPieceValid(p) && a.pieceNum[p] < 10
    requires AddedShape(a, r, sq, p)
    ensures WellFormed(r)
  {
    FramedUpdate(a.board, sq, p);
    PlaceOk(a.pieceList, p, a.pieceNum[p], sq);
    CountsOkAfter(a.pieceNum, p, a.pieceNum[p] + 1);
  }

  lemma AddedCounters(a: Position, r: Position, sq: nat, p: nat)
    requires Consistent(a) && WellFormed(r) && OnBoard(sq) && IsPieceValid(p) && a.pieceNum[p] < 10
    requires a.board[sq] == EMPTY && AddedShape(a, r, sq, p) && AddedFields(a, r, sq, p)
    ensures CountersMatch(r)
  {
    CountersPut(a, r, sq, p);
    CountersAfterWrite(a, r, sq, p);
  }

  lemma AddedPawns(a: Position, r: Position, sq: nat, p: nat)
    requires Consistent(a) && WellFormed(r) && OnBoard(sq) && IsPieceValid(p) && a.pieceNum[p] < 10
    requires a.board[sq] == EMPTY && AddedShape(a, r, sq, p) && AddedFields(a, r, sq, p)
    ensures PawnsMatch(r)
  {
    ColourOf(p);
    PawnsAfterPut(a, r, sq, p);
  }

  lemma AddedLists(a: Position, r: Position, sq: nat, p: nat)
    requires Consistent(a) && WellFormed(r) && OnBoard(sq) && IsPieceValid(p) && a.pieceNum[p] < 10
    requires a.board[sq] == EMPTY && AddedShape(a, r, sq, p)
    ensures ListsMatch(r)
  {
    ListsAfterPut(a, r, sq, p);
  }

  /** Reading a cell that holds a piece is `addPiece` on the board as read. */
  lemma VisitShape(pos: Position, n: nat, a: Position, r: Position)
    requires Shaped(pos) && n < LargeNC
    requires pos.board[n] != EMPTY && pos.board[n] != OFFBOARD
    requires IsPieceValid(pos.board[n]) ==> pos.pieceNum[pos.board[n]] < 10
    requires a == At(pos, n) && r == At(Visit(pos, n), n + 1) && WellFormed(a)
    ensures OnBoard(n) && IsPieceValid(pos.board[n])
    ensures AddedShape(a, r, n, pos.board[n])
  {
    Occupied(pos.board, n);
    SeenStep(pos.board, n);
  }

  lemma VisitPawns(pos: Position, n: nat, a: Position, r: Position, p: nat)
    requires Shaped(pos) && n < LargeNC && OnBoard(n) && IsPieceValid(p) && PieceCol[p] < 2
    requires pos.board[n] == p && pos.pieceNum[p] < 10
    requires a == At(pos, n) && r == At(Visit(pos, n), n + 1)
    ensures r.pawns == (if PieceBig[p] then a.pawns else Mark(a.pawns, PieceCol[p], Convert120To64(n)))
  {
    Branches(p);
  }

  lemma VisitCounters(pos: Position, n: nat, a: Position, r: Position, p: nat)
    requires Shaped(pos) && n < LargeNC && OnBoard(n) && IsPieceValid(p) && PieceCol[p] < 2
    requires pos.board[n] == p && pos.pieceNum[p] < 10
    requires a == At(pos, n) && r == At(Visit(pos, n), n + 1) && WellFormed(a)
    ensures CountersMoved(a, r, p, true)
  {
    Branches(p);
  }

  lemma VisitPiece(pos: Position, n: nat)
    requires Shaped(pos) && n < LargeNC && Consistent(At(pos, n))
    requires pos.board[n] != EMPTY && pos.board[n] != OFFBOARD
    requires IsPieceValid(pos.board[n]) ==> pos.pieceNum[pos.board[n]] < 10
    ensures Consistent(At(Visit(pos, n), n + 1))
  {
    var a, r, p := At(pos, n), At(Visit(pos, n), n + 1), pos.board[n];
    VisitShape(pos, n, a, r);
    ColourOf(p);
    VisitPawns(pos, n, a, r, p);
    VisitCounters(pos, n, a, r, p);
    SeenStep(pos.board, n);
    AddedWellFormed(a, r, n, p);
    AddedCounters(a, r, n, p);
    AddedPawns(a, r, n, p);
    AddedLists(a, r, n, p);
  }

  /** The lists after reading cell `n` still hold the squares read, in order. */
  lemma VisitLists(pos: Position, n: nat)
    requires Shaped(pos) && n < LargeNC && Ordered(pos, n)
    requires IsPieceValid(pos.board[n]) ==> pos.pieceNum[pos.board[n]] < 10
    ensures var r := Visit(pos, n);
      Ordered(r, n + 1)
  {
    var b, r := pos.board, Visit(pos, n);
    if b[n] != EMPTY && b[n] != OFFBOARD {
      Occupied(b, n);
      PlaceOk(pos.pieceList, b[n], pos.pieceNum[b[n]], n);
      forall p | wP <= p <= bK
        ensures r.pieceList[p][..r.pieceNum[p]] == SquaresOf(b, p, n + 1)
      {
        if p == b[n] {
          var k := pos.pieceNum[p];
          assert r.pieceList[p][..k + 1] == pos.pieceList[p][..k] + [n];
        }
      }
    }
  }

  /** The king squares after reading cell `n`. */
  lemma VisitKings(pos: Position, n: nat, kings0: seq<nat>)
    requires |kings0| == 2 && Shaped(pos) && n < LargeNC && KingsSeen(pos, n, kings0)
    requires IsPieceValid(pos.board[n]) ==> pos.pieceNum[pos.board[n]] < 10
    ensures var r := Visit(pos, n);
      KingsSeen(r, n + 1, kings0)
  {
    var b, r := pos.board, Visit(pos, n);
    LastSeenStep(b, n, wK, pos.kings[WHITE], r.kings[WHITE], kings0[WHITE]);
    LastSeenStep(b, n, bK, pos.kings[BLACK], r.kings[BLACK], kings0[BLACK]);
  }

  /** Reading cell `n` makes it the last one holding `v` when it does, and
      leaves the last one as it was when it does not. */
  lemma LastSeenStep(b: seq<nat>, n: nat, v: nat, k: nat, k': nat, k0: nat)
    requires n < |b| && LastSeen(b, n, v, k, k0)
    requires k' == if b[n] == v then n else k
    ensures LastSeen(b, n + 1, v, k', k0)
  {
    if b[n] == v {
      assert 0 <= n < n + 1 && b[n] == v;
    } else if exists sq :: 0 <= sq < n && b[sq] == v {
      var sq :| 0 <= sq < n && b[sq] == v;
      assert 0 <= sq < n + 1 && b[sq] == v;
    }
  }

  /** One pass of the loop keeps the invariant. */
  lemma VisitScanned(pos: Position, n: nat, kings0: seq<nat>)
    requires |kings0| == 2 && Scanned(pos, n, kings0) && n < LargeNC
    requires IsPieceValid(pos.board[n]) ==> pos.pieceNum[pos.board[n]] < 10
    ensures Scanned(Visit(pos, n), n + 1, kings0)
  {
    RoomAt(pos, n);
    var b := pos.board;
    if b[n] != EMPTY && b[n] != OFFBOARD {
      VisitPiece(pos, n);
    } else {
      SeenStep(b, n);
    }
    VisitLists(pos, n);
    VisitKings(pos, n, kings0);
  }

  /** The rest of the loop keeps the invariant to the last cell. */
  lemma {:induction false} ScanScanned(pos: Position, n: nat, kings0: seq<nat>)
    requires |kings0| == 2 && Scanned(pos, n, kings0)
    ensures Scanned(Scan(pos, n), LargeNC, kings0)
    decreases LargeNC - n
  {
    if n < LargeNC {
      RoomAt(pos, n);
      VisitScanned(pos, n, kings0);
      ScanScanned(Visit(pos, n), n + 1, kings0);
    }
  }

  // ---------------------------------------------------------------------
  // What the pass leaves
  // ---------------------------------------------------------------------

  /** From the reset state with a board holding at most ten pieces of each
      kind, `update` leaves a consistent position whose lists are the squares
      of each piece in ascending order and whose king squares are the last
      cells holding each king (the old squares when there is none). */
  lemma UpdateConsistent(pos: Position)
    requires WellFormed(pos) && Blank(pos) && Capacity(pos.board)
    ensures Shaped(pos) && Room(pos, 0)
    ensures Consistent(Update(pos))
    ensures forall p :: wP <= p <= bK ==> Live(Update(pos), p) == SquaresOf(pos.board, p, LargeNC)
    ensures LastSeen(pos.board, LargeNC, wK, Update(pos).kings[WHITE], pos.kings[WHITE])
    ensures LastSeen(pos.board, LargeNC, bK, Update(pos).kings[BLACK], pos.kings[BLACK])
  {
    ScannedStart(pos);
    ScanScanned(pos, 0, pos.kings);
    SeenAll(pos.board);
  }

  /** A board with a king of each colour gets both king squares right. */
  lemma UpdateKings(pos: Position, w: nat, k: nat)
    requires WellFormed(pos) && Blank(pos) && Capacity(pos.board)
    requires w < LargeNC && pos.board[w] == wK && k < LargeNC && pos.board[k] == bK
    ensures Shaped(pos) && Room(pos, 0)
    ensures Consistent(Update(pos)) && KingsOk(Update(pos))
  {
    UpdateConsistent(pos);
  }
}
