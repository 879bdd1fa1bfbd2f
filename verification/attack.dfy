/** `Board::isAttacked` of src/board.cpp: is a square attacked by the pieces
    of one side? Pawns and the two stepping pieces look at fixed offsets; the
    sliding pieces are found by walking rays until the walk leaves the
    `EMPTY` cells, which the `OFFBOARD` frame guarantees. */
module Attack {
  import opened Arith
  import opened Constants
  import opened Ranges
  import opened Board

  // ---------------------------------------------------------------------
  // The walk of src/board.cpp
  // ---------------------------------------------------------------------

  /** The square `k` steps from `sq` along `dir`. */
  function Along(sq: int, dir: int, k: nat): int {
    if k == 0 then sq else Along(sq, dir, k - 1) + dir
  }

  /** The pieces a diagonal ray (`checkBQ`) or a straight ray (`checkRQ`)
      reports as attackers. */
  predicate Slider(diagonal: bool, v: nat) {
    if diagonal then v == wQ || v == wB || v == bQ || v == bB
    else v == wQ || v == wR || v == bQ || v == bR
  }

  /** A ray step is one of the eight king offsets. */
  predicate IsRayDir(dir: int) {
    dir == 1 || dir == -1 || dir == 10 || dir == -10 || dir == 9 || dir == -9 || dir == 11 || dir == -11
  }

  /** One direction of the `while (true)` loops: step from `curr` along `dir`;
      an `EMPTY` cell continues the walk, `OFFBOARD` or any other piece ends
      it without a hit, and a slider of the right kind and colour is a hit. */
  function RayHit(board: seq<nat>, curr: int, dir: int, side: nat, diagonal: bool): bool
    requires Framed(board) && OnBoard(curr) && IsRayDir(dir)
    decreases if dir > 0 then LargeNC - curr else curr
  {
    var next := curr + dir;
    if board[next] == EMPTY then
      assert CellOk(next, board[next]);
      RayHit(board, next, dir, side, diagonal)
    else
      board[next] != OFFBOARD && Slider(diagonal, board[next]) && PieceCol[board[next]] == side
  }

  /** The knight and king loops: some offset lands on one of the two pieces
      `a`/`b` of colour `side`. */
  function StepHit(board: seq<nat>, sq: int, offsets: seq<int>, side: nat, a: nat, b: nat): bool
    requires |board| == LargeNC && OnBoard(sq) && a <= bK && b <= bK
    requires forall i :: 0 <= i < |offsets| ==> -21 <= offsets[i] <= 21
  {
    if offsets == [] then false
    else
      var v := board[sq + offsets[0]];
      (v != OFFBOARD && (v == a || v == b) && PieceCol[v] == side)
      || StepHit(board, sq, offsets[1..], side, a, b)
  }

  /** The pawn test: a white attacker stands on `sq - 11` or `sq - 9`, and for
      any other side a black pawn on `sq + 11` or `sq + 9`. */
  predicate PawnHit(board: seq<nat>, sq: int, side: nat)
    requires |board| == LargeNC && OnBoard(sq)
  {
    if side == WHITE then board[sq - 11] == wP || board[sq - 9] == wP
    else board[sq + 11] == bP || board[sq + 9] == bP
  }

  lemma OffsetsInRange()
    ensures forall i :: 0 <= i < |KnightMoves| ==> -21 <= KnightMoves[i] <= 21
    ensures forall i :: 0 <= i < |KingMoves| ==> -21 <= KingMoves[i] <= 21
  {
  }

  /** `isAttacked(sq, side)`: pawns, knights, the diagonals 11, -11, 9, -9,
      the lines 1, -1, 10, -10, then the king, returning at the first hit. */
  predicate IsAttacked(board: seq<nat>, sq: int, side: nat)
    requires Framed(board) && OnBoard(sq)
  {
    OffsetsInRange();
    || PawnHit(board, sq, side)
    || StepHit(board, sq, KnightMoves, side, wN, bN)
    || RayHit(board, sq, 11, side, true) || RayHit(board, sq, -11, side, true)
    || RayHit(board, sq, 9, side, true) || RayHit(board, sq, -9, side, true)
    || RayHit(board, sq, 1, side, false) || RayHit(board, sq, -1, side, false)
    || RayHit(board, sq, 10, side, false) || RayHit(board, sq, -10, side, false)
    || StepHit(board, sq, KingMoves, side, wK, bK)
  }

  // ---------------------------------------------------------------------
  // An attacker-side reference
  // ---------------------------------------------------------------------

  /** The first occupied cell along `dir` from `sq` is `k` steps away. */
  predicate FirstOccupied(board: seq<nat>, sq: int, dir: int, k: nat)
    requires |board| == LargeNC
  {
    && 1 <= k
    && 0 <= Along(sq, dir, k) < LargeNC && board[Along(sq, dir, k)] != EMPTY
    && forall j: nat :: 1 <= j < k ==> 0 <= Along(sq, dir, j) < LargeNC && board[Along(sq, dir, j)] == EMPTY
  }

  /** The first piece `k` steps along `dir` from `sq` is a slider of the
      right kind and of colour `side`. */
  predicate SeesAt(board: seq<nat>, sq: int, dir: int, side: nat, diagonal: bool, k: nat)
    requires |board| == LargeNC
  {
    FirstOccupied(board, sq, dir, k)
    && Slider(diagonal, board[Along(sq, dir, k)]) && PieceCol[board[Along(sq, dir, k)]] == side
  }

  /** A slider of colour `side` sees `sq` along `dir`: it is the first piece
      met from `sq` in that direction. */
  ghost predicate SliderSees(board: seq<nat>, sq: int, dir: int, side: nat, diagonal: bool)
    requires |board| == LargeNC
  {
    exists k: nat :: SeesAt(board, sq, dir, side, diagonal, k)
  }

  /** A piece `a` or `b` of colour `side` stands `off` away from `sq`. */
  predicate StepperAt(board: seq<nat>, sq: int, off: int, side: nat, a: nat, b: nat)
    requires |board| == LargeNC && a <= bK && b <= bK
  {
    0 <= sq + off < LargeNC && (board[sq + off] == a || board[sq + off] == b)
    && PieceCol[board[sq + off]] == side
  }

  /** `sq` is attacked by `side`: a pawn of that side stands diagonally behind
      it, or a knight or king of that side is one step of its kind away, or a
      bishop, rook or queen of that side is the first piece on one of the rays
      it moves along. */
  ghost predicate AttackedBy(board: seq<nat>, sq: int, side: nat)
    requires |board| == LargeNC && OnBoard(sq)
  {
    || PawnHit(board, sq, side)
    || (exists i :: 0 <= i < 8 && StepperAt(board, sq, KnightMoves[i], side, wN, bN))
    || (exists i :: 0 <= i < 8 && SliderSees(board, sq, BishopMoves[i], side, true) && i < 4)
    || (exists i :: 0 <= i < 8 && SliderSees(board, sq, RookMoves[i], side, false) && i < 4)
    || (exists i :: 0 <= i < 8 && StepperAt(board, sq, KingMoves[i], side, wK, bK))
  }

  // ---------------------------------------------------------------------
  // The walk finds exactly the first occupied cell
  // ---------------------------------------------------------------------

  lemma {:induction false} AlongNext(sq: int, dir: int, j: nat)
    ensures Along(sq + dir, dir, j) == Along(sq, dir, j + 1)
  {
    if j > 0 {
      AlongNext(sq, dir, j - 1);
    }
  }

  /** Past an `EMPTY` first cell, the slider seen from `curr` is the one seen
      from the next cell, one step closer. */
  lemma SeesPastEmpty(board: seq<nat>, curr: int, dir: int, side: nat, diagonal: bool)
    requires |board| == LargeNC && 0 <= curr + dir < LargeNC && board[curr + dir] == EMPTY
    ensures SliderSees(board, curr, dir, side, diagonal) <==> SliderSees(board, curr + dir, dir, side, diagonal)
  {
    var next := curr + dir;
    if SliderSees(board, next, dir, side, diagonal) {
      var k: nat :| SeesAt(board, next, dir, side, diagonal, k);
      AlongNext(curr, dir, k);
      forall j: nat | 1 <= j < k + 1
        ensures 0 <= Along(curr, dir, j) < LargeNC && board[Along(curr, dir, j)] == EMPTY
      {
        AlongNext(curr, dir, j - 1);
      }
      assert SeesAt(board, curr, dir, side, diagonal, k + 1);
    }
    if SliderSees(board, curr, dir, side, diagonal) {
      var k: nat :| SeesAt(board, curr, dir, side, diagonal, k);
      assert Along(curr, dir, 1) == next;
      assert k != 1;
      AlongNext(curr, dir, k - 1);
      forall j: nat | 1 <= j < k - 1
        ensures 0 <= Along(next, dir, j) < LargeNC && board[Along(next, dir, j)] == EMPTY
      {
        AlongNext(curr, dir, j);
      }
      assert SeesAt(board, next, dir, side, diagonal, k - 1);
    }
  }

  /** When the first cell is occupied, only that cell can be seen. */
  lemma SeesFirstCell(board: seq<nat>, curr: int, dir: int, side: nat, diagonal: bool)
    requires |board| == LargeNC && 0 <= curr + dir < LargeNC && board[curr + dir] != EMPTY
    ensures SliderSees(board, curr, dir, side, diagonal) <==>
      Slider(diagonal, board[curr + dir]) && PieceCol[board[curr + dir]] == side
  {
    assert Along(curr, dir, 1) == curr + dir;
    if SliderSees(board, curr, dir, side, diagonal) {
      var k: nat :| SeesAt(board, curr, dir, side, diagonal, k);
    }
    if Slider(diagonal, board[curr + dir]) && PieceCol[board[curr + dir]] == side {
      assert SeesAt(board, curr, dir, side, diagonal, 1);
    }
  }

  /** One ray of the walk reports a hit exactly when a slider of the right
      kind and colour is the first piece on that ray. */
  lemma {:induction false} RayHitSees(board: seq<nat>, curr: int, dir: int, side: nat, diagonal: bool)
    requires Framed(board) && OnBoard(curr) && IsRayDir(dir)
    ensures RayHit(board, curr, dir, side, diagonal) <==> SliderSees(board, curr, dir, side, diagonal)
    decreases if dir > 0 then LargeNC - curr else curr
  {
    var next := curr + dir;
    if board[next] == EMPTY {
      assert CellOk(next, board[next]);
      RayHitSees(board, next, dir, side, diagonal);
      SeesPastEmpty(board, curr, dir, side, diagonal);
    } else {
      SeesFirstCell(board, curr, dir, side, diagonal);
    }
  }

  /** The offset loops report a hit exactly when some offset of the list
      holds one of the two pieces in the right colour. */
  lemma {:induction false} StepHitAt(board: seq<nat>, sq: int, offsets: seq<int>, side: nat, a: nat, b: nat)
    requires Framed(board) && OnBoard(sq) && a <= bK && b <= bK
    requires forall i :: 0 <= i < |offsets| ==> -21 <= offsets[i] <= 21
    ensures StepHit(board, sq, offsets, side, a, b) <==>
      exists i :: 0 <= i < |offsets| && StepperAt(board, sq, offsets[i], side, a, b)
  {
    if offsets != [] {
      StepHitAt(board, sq, offsets[1..], side, a, b);
      if StepHit(board, sq, offsets[1..], side, a, b) {
        var i :| 0 <= i < |offsets[1..]| && StepperAt(board, sq, offsets[1..][i], side, a, b);
        assert StepperAt(board, sq, offsets[i + 1], side, a, b);
      }
      if exists i :: 0 <= i < |offsets| && StepperAt(board, sq, offsets[i], side, a, b) {
        var i :| 0 <= i < |offsets| && StepperAt(board, sq, offsets[i], side, a, b);
        if i > 0 {
          assert offsets[1..][i - 1] == offsets[i];
        }
      }
      assert CellOk(sq + offsets[0], board[sq + offsets[0]]);
    }
  }

  /** The walk of `isAttacked` agrees with the attacker-side description. */
  lemma IsAttackedMeans(board: seq<nat>, sq: int, side: nat)
    requires Framed(board) && OnBoard(sq)
    ensures IsAttacked(board, sq, side) <==> AttackedBy(board, sq, side)
  {
    OffsetsInRange();
    StepHitAt(board, sq, KnightMoves, side, wN, bN);
    StepHitAt(board, sq, KingMoves, side, wK, bK);
    RayHitSees(board, sq, 11, side, true);
    RayHitSees(board, sq, -11, side, true);
    RayHitSees(board, sq, 9, side, true);
    RayHitSees(board, sq, -9, side, true);
    RayHitSees(board, sq, 1, side, false);
    RayHitSees(board, sq, -1, side, false);
    RayHitSees(board, sq, 10, side, false);
    RayHitSees(board, sq, -10, side, false);
    assert BishopMoves[0] == -9 && BishopMoves[1] == -11 && BishopMoves[2] == 11 && BishopMoves[3] == 9;
    assert RookMoves[0] == -1 && RookMoves[1] == -10 && RookMoves[2] == 1 && RookMoves[3] == 10;
  }

  // ---------------------------------------------------------------------
  // Rays are short
  // ---------------------------------------------------------------------

  /** The file and rank steps of a ray direction. */
  function FileStep(dir: int): int
    requires IsRayDir(dir)
  {
    if dir == 1 || dir == 11 || dir == -9 then 1
    else if dir == -1 || dir == -11 || dir == 9 then -1
    else 0
  }

  function RankStep(dir: int): int
    requires IsRayDir(dir)
  {
    if dir == 10 || dir == 11 || dir == 9 then 1
    else if dir == -10 || dir == -11 || dir == -9 then -1
    else 0
  }

  /** A coordinate `x` after `j` steps of `d`, for `d` in `-1..1`. */
  function Shifted(x: int, d: int, j: nat): int {
    if d > 0 then x + j else if d < 0 then x - j else x
  }

  /** Steps until a coordinate `x` in `0..7` moving by `d` leaves `0..7`. */
  function Exit(x: int, d: int): int {
    if d > 0 then 8 - x else if d < 0 then x + 1 else 9
  }

  /** A coordinate stays on the board for fewer than `Exit` steps and is
      just off it after exactly `Exit` steps. */
  lemma ShiftedRange(x: int, d: int, j: nat)
    requires 0 <= x < 8 && -1 <= d <= 1 && j <= Exit(x, d)
    ensures -1 <= Shifted(x, d, j) <= 8
    ensures j < Exit(x, d) ==> 0 <= Shifted(x, d, j) < 8
    ensures d != 0 && j == Exit(x, d) ==> Shifted(x, d, j) == -1 || Shifted(x, d, j) == 8
  {
  }

  /** A padded-board square whose file or rank is just outside the board. */
  lemma OffBoardFR(f: int, r: int)
    requires -1 <= f <= 8 && -1 <= r <= 8
    requires f == -1 || f == 8 || r == -1 || r == 8
    ensures !OnBoard(ConvertFR(f, r))
  {
    var sq := ConvertFR(f, r);
    if f == -1 {
      DivModUnique(sq, 10, r + 2, 0);
    } else if f == 8 {
      DivModUnique(sq, 10, r + 2, 9);
    } else if r == -1 {
      DivModUnique(sq, 10, 1, f + 1);
    } else {
      DivModUnique(sq, 10, 10, f + 1);
    }
  }

  /** Every ray from a board square stays on the board for fewer than eight
      steps and is off it after at most eight, so each walk of `isAttacked`
      reads at most eight cells per direction. */
  lemma RayLeaves(sq: int, dir: int)
    requires OnBoard(sq) && IsRayDir(dir)
    ensures exists k: nat :: 1 <= k <= 8 && !OnBoard(Along(sq, dir, k))
                             && (forall j: nat :: 1 <= j < k ==> OnBoard(Along(sq, dir, j)))
  {
    var f, r := FileOf(sq), RankOf(sq);
    var df, dr := FileStep(dir), RankStep(dir);
    OnBoardIsConvertFR(sq);
    var ef, er := Exit(f, df), Exit(r, dr);
    var k := if ef < er then ef else er;
    assert df != 0 || dr != 0;
    forall j: nat | 1 <= j < k
      ensures OnBoard(Along(sq, dir, j))
    {
      AlongFR(sq, dir, j);
      ShiftedRange(f, df, j);
      ShiftedRange(r, dr, j);
      ConvertFRInverse(Shifted(f, df, j), Shifted(r, dr, j));
    }
    AlongFR(sq, dir, k);
    ShiftedRange(f, df, k);
    ShiftedRange(r, dr, k);
    OffBoardFR(Shifted(f, df, k), Shifted(r, dr, k));
  }

  /** `k` steps along a ray move the file and rank `k` times. */
  lemma {:induction false} AlongFR(sq: int, dir: int, k: nat)
    requires OnBoard(sq) && IsRayDir(dir)
    ensures Along(sq, dir, k) == ConvertFR(Shifted(FileOf(sq), FileStep(dir), k), Shifted(RankOf(sq), RankStep(dir), k))
  {
    OnBoardIsConvertFR(sq);
    if k > 0 {
      AlongFR(sq, dir, k - 1);
    }
  }
}
