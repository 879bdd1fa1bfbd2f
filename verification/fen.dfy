/** `parseFEN` of src/board.cpp and the `Board(fen)` constructor of
    include/board.hpp. The parser walks the piece-placement field from A8,
    reads the side, castling and en-passant fields, computes the hash from
    scratch and rebuilds the derived fields with `update`. It does not read
    the half-move and full-move fields. The source never checks its input:
    where it would read past the end of the text, write outside the 64
    squares or past the end of a piece list, or index the key table with an
    en-passant square outside the padded board, the model returns an error
    instead. */
module Fen {
  import opened Constants
  import opened Arith
  import opened Board
  import opened Counting
  import opened Ranges
  import Update
  import MakeMove

  // ---------------------------------------------------------------------
  // Results
  // ---------------------------------------------------------------------

  /** Where the source has undefined behaviour or corrupts the board frame. */
  datatype FenError =
    | RanOffEnd       // a field is read past the end of the text
    | OutsideBoard    // the placement writes a cell that is not one of the 64 squares
    | ListOverflow    // more than ten pieces of one kind: `update` overruns a list
    | EnPasOutside    // the en-passant square is no cell of the padded board

  datatype Result<T> = Ok(value: T) | Err(error: FenError)

  // ---------------------------------------------------------------------
  // Characters
  // ---------------------------------------------------------------------

  /** `pieceParser[c]`: the map's `operator[]` gives 0, which is `EMPTY`,
      for a character it does not hold. */
  function PieceCode(c: char): (p: nat)
    ensures p <= bK
  {
    if c == 'P' then wP else if c == 'N' then wN else if c == 'B' then wB
    else if c == 'R' then wR else if c == 'Q' then wQ else if c == 'K' then wK
    else if c == 'p' then bP else if c == 'n' then bN else if c == 'b' then bB
    else if c == 'r' then bR else if c == 'q' then bQ else if c == 'k' then bK
    else EMPTY
  }

  predicate IsDigit(c: char) {
    '0' <= c <= '9'
  }

  /** `countParser[c]` for a digit: `1`..`8` count themselves, `0` and `9`
      are missing from the map and count 0. */
  function RunLength(c: char): (n: nat)
    ensures n <= 8
  {
    if '1' <= c <= '8' then (c as int) - ('0' as int) else 0
  }

  /** The castling right a letter of the castling field grants. */
  function RightOf(c: char): bv8 {
    if c == 'K' then WKC
    else if c == 'Q' then WQC
    else if c == 'k' then BKC
    else if c == 'q' then BQC
    else 0
  }

  /** The side letter: `w` and `b` set the side, anything else leaves the
      `BOTH` that `reset` put there. */
  function SideOf(c: char): (side: nat)
    ensures side <= BOTH
  {
    if c == 'w' then WHITE else if c == 'b' then BLACK else BOTH
  }

  // ---------------------------------------------------------------------
  // The placement field
  // ---------------------------------------------------------------------

  /** The digit loop: `n` `EMPTY` cells from `file` on along `rank`. */
  function Empties(b: seq<nat>, file: int, rank: int, n: nat): (r: Result<seq<nat>>)
    requires |b| == LargeNC
    ensures r.Ok? ==> |r.value| == LargeNC && (Framed(b) ==> Framed(r.value))
    ensures r.Ok? ==> forall sq :: 0 <= sq < LargeNC && r.value[sq] != b[sq] ==>
      r.value[sq] == EMPTY && exists f :: file <= f < file + n && sq == ConvertFR(f, rank)
    decreases n
  {
    if n == 0 then Ok(b)
    else
      var sq := ConvertFR(file, rank);
      if !OnBoard(sq) then Err(OutsideBoard)
      else
        EmptiesFrame(b, sq, file, rank, n, Empties(b[sq := EMPTY], file + 1, rank, n - 1));
        Empties(b[sq := EMPTY], file + 1, rank, n - 1)
  }

  /** The step of `Empties`: a cell the rest changes is one further along. */
  lemma EmptiesFrame(b: seq<nat>, sq: nat, file: int, rank: int, n: nat, r: Result<seq<nat>>)
    requires |b| == LargeNC && n > 0 && sq == ConvertFR(file, rank) && OnBoard(sq)
    requires r.Ok? ==> |r.value| == LargeNC && (Framed(b[sq := EMPTY]) ==> Framed(r.value))
    requires r.Ok? ==> forall s :: 0 <= s < LargeNC && r.value[s] != b[sq := EMPTY][s] ==>
      r.value[s] == EMPTY && exists f :: file + 1 <= f < file + n && s == ConvertFR(f, rank)
    ensures r.Ok? ==> |r.value| == LargeNC && (Framed(b) ==> Framed(r.value))
    ensures r.Ok? ==> forall s :: 0 <= s < LargeNC && r.value[s] != b[s] ==>
      r.value[s] == EMPTY && exists f :: file <= f < file + n && s == ConvertFR(f, rank)
  {
    if r.Ok? {
      if Framed(b) {
        FramedUpdate(b, sq, EMPTY);
      }
      forall s | 0 <= s < LargeNC && r.value[s] != b[s]
        ensures r.value[s] == EMPTY && exists f :: file <= f < file + n && s == ConvertFR(f, rank)
      {
        if s == sq {
          assert s == ConvertFR(file, rank);
        }
      }
    }
  }

  /** The loop over the placement field from text position `i`, at `file`
      and `rank`. It stops at the first space and yields the board and the
      position of that space. */
  function Walk(b: seq<nat>, fen: string, i: nat, file: int, rank: int): (r: Result<(seq<nat>, nat)>)
    requires |b| == LargeNC
    ensures r.Ok? ==> |r.value.0| == LargeNC && (Framed(b) ==> Framed(r.value.0))
    ensures r.Ok? ==> i <= r.value.1 < |fen| && fen[r.value.1] == ' '
    ensures r.Ok? ==> forall m :: i <= m < r.value.1 ==> fen[m] != ' '
    ensures (forall m :: i <= m < |fen| ==> fen[m] != ' ') ==> r.Err?
    decreases |fen| - i
  {
    if i >= |fen| then Err(RanOffEnd)
    else if fen[i] == '/' then Walk(b, fen, i + 1, FILE_A, rank - 1)
    else if fen[i] == ' ' then Ok((b, i))
    else if IsDigit(fen[i]) then
      var n := RunLength(fen[i]);
      match Empties(b, file, rank, n)
      case Err(e) => Err(e)
      case Ok(b') => Walk(b', fen, i + 1, file + n, rank)
    else
      var sq := ConvertFR(file, rank);
      if !OnBoard(sq) then Err(OutsideBoard)
      else
        FramedWrite(b, sq, PieceCode(fen[i]));
        Walk(b[sq := PieceCode(fen[i])], fen, i + 1, file + 1, rank)
  }

  /** A write of a piece code to a square keeps the frame. */
  lemma FramedWrite(b: seq<nat>, sq: nat, v: nat)
    requires |b| == LargeNC && OnBoard(sq) && v <= bK
    ensures Framed(b) ==> Framed(b[sq := v])
  {
    if Framed(b) {
      FramedUpdate(b, sq, v);
    }
  }

  // ---------------------------------------------------------------------
  // The other fields
  // ---------------------------------------------------------------------

  /** The castling loop from text position `m`: it ORs in the right of each
      letter and stops at a space or at the end of the text. */
  function Rights(fen: string, m: nat, perm: bv8): (r: (bv8, nat))
    requires m <= |fen|
    ensures m <= r.1 <= |fen| && (r.1 < |fen| ==> fen[r.1] == ' ')
    ensures forall t :: m <= t < r.1 ==> fen[t] != ' '
    ensures perm <= 15 ==> r.0 <= 15
    decreases |fen| - m
  {
    if m == |fen| || fen[m] == ' ' then (perm, m)
    else
      RightsStayBelow16(perm, fen[m]);
      Rights(fen, m + 1, perm | RightOf(fen[m]))
  }

  lemma RightsStayBelow16(perm: bv8, c: char)
    ensures perm <= 15 ==> perm | RightOf(c) <= 15
  {
  }

  /** The castling field from position `j`: the rights and the position of
      the space after the field. A `-` skips one character. */
  function CastleField(fen: string, j: nat): (r: (bv8, nat))
    requires j < |fen|
    ensures r.0 <= 15 && j < r.1 + 1
  {
    if fen[j] != '-' then Rights(fen, j, 0) else (0, j + 1)
  }

  /** The en-passant field from position `e`: `-` for none, else a file
      letter and a rank digit, whose square must be a cell of the padded
      board for the hash to be computed. */
  function EnPasField(fen: string, e: nat): (r: Result<nat>)
    ensures r.Ok? ==> r.value < LargeNC
  {
    if e >= |fen| then Err(RanOffEnd)
    else if fen[e] == '-' then Ok(NO_SQ)
    else if e + 1 >= |fen| then Err(RanOffEnd)
    else
      var sq := ConvertFR((fen[e] as int) - ('a' as int), (fen[e + 1] as int) - ('1' as int));
      if 0 <= sq < LargeNC then Ok(sq) else Err(EnPasOutside)
  }

  /** The side, castling and en-passant fields after the space at `i` that
      ends the placement field. */
  function Tail(fen: string, i: nat): (r: Result<(nat, bv8, nat)>)
    requires i < |fen|
    ensures r.Ok? ==> r.value.0 <= BOTH && r.value.1 <= 15 && r.value.2 < LargeNC
  {
    if i + 3 >= |fen| then Err(RanOffEnd)
    else
      var castle := CastleField(fen, i + 3);
      var enPas := EnPasField(fen, castle.1 + 1);
      if enPas.Err? then Err(enPas.error)
      else Ok((SideOf(fen[i + 1]), castle.0, enPas.value))
  }

  // ---------------------------------------------------------------------
  // parseFEN
  // ---------------------------------------------------------------------

  /** The position after `reset` and the four fields, with the hash
      `generate` computes. */
  function Fields(env: Env, pos: Position, board: seq<nat>, side: nat, perm: bv8, enPas: nat): (r: Position)
    requires EnvOk(env) && SlotsOk(pos.pieceList) && Framed(board)
    requires perm <= 15 && enPas < LargeNC
    ensures WellFormed(r) && Update.Blank(r) && r.board == board
  {
    var p := Reset(pos).(board := board, side := side, castlePerm := perm, enPas := enPas);
    p.(posKey := Generate(env, p))
  }

  /** The loaded fields, then `update`. */
  function Loaded(env: Env, pos: Position, board: seq<nat>, side: nat, perm: bv8, enPas: nat): (r: Position)
    requires EnvOk(env) && SlotsOk(pos.pieceList) && Framed(board) && Capacity(board)
    requires perm <= 15 && enPas < LargeNC
  {
    Update.UpdateConsistent(Fields(env, pos, board, side, perm, enPas));
    Update.Update(Fields(env, pos, board, side, perm, enPas))
  }

  /** `parseFEN`, applied to the position `pos`: the fields `reset` leaves
      alone (the history and the list slots) come from `pos`. */
  function ParseFen(env: Env, pos: Position, fen: string): (r: Result<Position>)
    requires EnvOk(env) && SlotsOk(pos.pieceList)
  {
    EmptyFramed();
    var walked := Walk(EmptyBoard, fen, 0, FILE_A, RANK_8);
    if walked.Err? then Err(walked.error)
    else
      var board := walked.value.0;
      var tail := Tail(fen, walked.value.1);
      if tail.Err? then Err(tail.error)
      else if !Capacity(board) then Err(ListOverflow)
      else
        Ok(Loaded(env, pos, board, tail.value.0, tail.value.1, tail.value.2))
  }

  /** `Board(fen)`: a fresh object with no history, then `parseFEN`. The
      list slots are uninitialised memory, so they are a parameter. */
  function FromFen(env: Env, slots: seq<seq<nat>>, fen: string): Result<Position>
    requires EnvOk(env) && SlotsOk(slots)
  {
    ParseFen(env, Position([], [], [], 0, 0, 0, 0, 0, 0, 0, [], [], [], [], [], [], slots), fen)
  }

  lemma EmptyFramed()
    ensures Framed(EmptyBoard)
  {
    forall sq | 0 <= sq < LargeNC
      ensures CellOk(sq, EmptyBoard[sq])
    {
      EmptyBoardAt(sq);
    }
    EmptyBoardAt(0);
  }

  // ---------------------------------------------------------------------
  // Writing a position as text
  // ---------------------------------------------------------------------

  /** `pieceChar` and `sideChar` of include/board.hpp. */
  const PieceChar: string := ".PNBRQKpnbrqk"
  const SideChar: string := "wb-"

  /** The placement character of one square: a piece letter, or a run of
      one for an empty square. The text never merges runs, which the parser
      does not need. */
  function CellChar(v: nat): char {
    if EMPTY < v <= bK then PieceChar[v] else '1'
  }

  /** Where placement-text position `t` of a square sits: row `t / 9` from
      rank 8 down, column `t % 9`; column 8 is the `/` between rows. */
  function TextIndex(sq: int): int {
    9 * (7 - RankOf(sq)) + FileOf(sq)
  }

  /** The square written at placement-text position `t`. */
  function TextSquare(t: int): int {
    ConvertFR(t % 9, 7 - t / 9)
  }

  /** The piece-placement field: eight rows of eight characters, rank 8
      first, separated by `/`. */
  function PlacementText(b: seq<nat>): (text: string)
    requires Framed(b)
    ensures |text| == 71
  {
    seq(71, t requires 0 <= t < 71 =>
      if t % 9 == 8 then '/'
      else
        TextGeometry(t);
        CellChar(b[TextSquare(t)]))
  }

  /** The castling field: the letters of the rights held, in the order
      `KQkq`, or `-` for none. */
  function CastleText(perm: bv8): string {
    if perm & 15 == 0 then "-"
    else
      (if perm & WKC != 0 then "K" else "") + (if perm & WQC != 0 then "Q" else "")
      + (if perm & BKC != 0 then "k" else "") + (if perm & BQC != 0 then "q" else "")
  }

  /** The en-passant field: `-`, or the square's file letter and rank digit. */
  function EnPasText(enPas: nat): string
    requires enPas == NO_SQ || OnBoard(enPas)
  {
    if enPas == NO_SQ then "-"
    else
      OnBoardIsConvertFR(enPas);
      [(('a' as int) + FileOf(enPas)) as char, (('1' as int) + RankOf(enPas)) as char]
  }

  /** What the text can say: a framed board, a side the side table names and
      an en-passant square that is unset or on the board. */
  predicate Printable(pos: Position) {
    Framed(pos.board) && pos.side <= BOTH && (pos.enPas == NO_SQ || OnBoard(pos.enPas))
  }

  /** The first four fields of a FEN record for `pos`; the half-move and
      full-move fields are left off, as the parser does not read them. */
  function ToFen(pos: Position): string
    requires Printable(pos)
  {
    PlacementText(pos.board) + " " + [SideChar[pos.side]] + " "
      + CastleText(pos.castlePerm) + " " + EnPasText(pos.enPas)
  }

  // ---------------------------------------------------------------------
  // Reading the text back
  // ---------------------------------------------------------------------

  /** A placement-text column below 8 names the square whose text index it is. */
  lemma TextGeometry(t: int)
    requires 0 <= t < 71 && t % 9 < 8
    ensures OnBoard(TextSquare(t)) && TextIndex(TextSquare(t)) == t
  {
    ConvertFRInverse(t % 9, 7 - t / 9);
  }

  /** Each square has one placement-text position, in a column below 8. */
  lemma TextIndexOf(sq: int)
    requires OnBoard(sq)
    ensures 0 <= TextIndex(sq) < 71 && TextIndex(sq) % 9 == FileOf(sq) < 8
    ensures TextSquare(TextIndex(sq)) == sq
  {
    OnBoardIsConvertFR(sq);
    DivModUnique(TextIndex(sq), 9, 7 - RankOf(sq), FileOf(sq));
  }

  /** The squares whose placement characters come at or after position `t`. */
  predicate Pending(sq: int, t: int) {
    OnBoard(sq) && TextIndex(sq) >= t
  }

  /** A piece letter reads back as its piece. */
  lemma PieceCharCode(v: nat)
    requires EMPTY < v <= bK
    ensures PieceCode(PieceChar[v]) == v && !IsDigit(PieceChar[v])
    ensures PieceChar[v] != '/' && PieceChar[v] != ' '
  {
  }

  /** The character in row `row`, column `col` of the placement text. */
  function CharAt(fen: string, row: nat, col: nat): char
    requires 9 * row + col < |fen|
  {
    fen[9 * row + col]
  }

  /** What the placement text holds in row `row`, column `col`: the
      square's character below column 8, then a `/` after each row but the
      last and the space that ends the field. */
  function Expected(b: seq<nat>, row: nat, col: nat): char
    requires |b| == LargeNC && row < 8 && col <= 8
  {
    if col < 8 then CellChar(b[ConvertFR(col, 7 - row)]) else if row < 7 then '/' else ' '
  }

  /** `fen` starts with the placement field of the framed board `b` and a
      space. */
  predicate Shows(b: seq<nat>, fen: string) {
    && Framed(b) && |fen| > 71
    && forall row: nat, col: nat {:trigger CharAt(fen, row, col)} :: row < 8 && col <= 8 ==>
         CharAt(fen, row, col) == Expected(b, row, col)
  }

  /** A text that starts with `PlacementText(b)` and a space shows `b`. */
  lemma ShowsPlacement(b: seq<nat>, fen: string)
    requires Framed(b) && |fen| > 71 && fen[..71] == PlacementText(b) && fen[71] == ' '
    ensures Shows(b, fen)
  {
    forall row: nat, col: nat | row < 8 && col <= 8
      ensures CharAt(fen, row, col) == Expected(b, row, col)
    {
      var t := 9 * row + col;
      if t < 71 {
        DivModUnique(t, 9, row, col);
        assert fen[t] == fen[..71][t];
      }
    }
  }

  /** `a` holds what `b` holds on every square already read at text
      position `t`, and on the frame. */
  predicate Agrees(a: seq<nat>, b: seq<nat>, t: int)
    requires |a| == LargeNC && |b| == LargeNC
  {
    forall sq :: 0 <= sq < LargeNC && !Pending(sq, t) ==> a[sq] == b[sq]
  }

  /** Once every square is read, the board is `b`. */
  lemma ReadAll(b: seq<nat>, a: seq<nat>)
    requires |b| == LargeNC && |a| == LargeNC && Agrees(a, b, 71)
    ensures a == b
  {
    forall sq | 0 <= sq < LargeNC
      ensures a[sq] == b[sq]
    {
      if OnBoard(sq) {
        OnBoardIsConvertFR(sq);
      }
    }
  }

  /** No square has the text index of a `/`. */
  lemma ReadSlash(b: seq<nat>, a: seq<nat>, row: int)
    requires |b| == LargeNC && |a| == LargeNC && Agrees(a, b, 9 * row + 8)
    ensures Agrees(a, b, 9 * (row + 1) + 0)
  {
    forall sq | 0 <= sq < LargeNC && !Pending(sq, 9 * (row + 1) + 0)
      ensures a[sq] == b[sq]
    {
      if OnBoard(sq) {
        OnBoardIsConvertFR(sq);
        var r, f := 7 - RankOf(sq), FileOf(sq);
        assert TextIndex(sq) == 9 * r + f;
        assert 0 <= f <= 7 && r <= row;
        assert 9 * r + f != 9 * row + 8;
      }
    }
  }

  /** Two squares with the same text index are the same square. */
  lemma TextIndexInjective(s: int, sq: int)
    requires OnBoard(s) && OnBoard(sq) && TextIndex(s) == TextIndex(sq)
    ensures s == sq
  {
    OnBoardIsConvertFR(s);
    OnBoardIsConvertFR(sq);
    var f, r, f', r' := FileOf(s), RankOf(s), FileOf(sq), RankOf(sq);
    assert 9 * (r - r') == f - f';
    assert r == r';
  }

  /** Reading square `ConvertFR(col, 7 - row)` leaves one square fewer pending. */
  lemma ReadOne(b: seq<nat>, a: seq<nat>, row: nat, col: nat, sq: int)
    requires |b| == LargeNC && |a| == LargeNC && row < 8 && col < 8 && sq == ConvertFR(col, 7 - row)
    requires Agrees(a, b, 9 * row + col)
    ensures 0 <= sq < LargeNC && Agrees(a[sq := b[sq]], b, 9 * row + (col + 1))
  {
    ConvertFRInverse(col, 7 - row);
    forall s | 0 <= s < LargeNC && !Pending(s, 9 * row + (col + 1))
      ensures a[sq := b[sq]][s] == b[s]
    {
      if s != sq && OnBoard(s) && TextIndex(s) == 9 * row + col {
        TextIndexInjective(s, sq);
      }
    }
  }

  /** A `/` at the end of a row moves the loop to file A of the next rank down. */
  lemma ReadRowEnd(b: seq<nat>, a: seq<nat>, fen: string, row: nat)
    requires Shows(b, fen) && |a| == LargeNC && row < 7
    ensures Walk(a, fen, 9 * row + 8, 8, 7 - row) == Walk(a, fen, 9 * (row + 1) + 0, 0, 7 - (row + 1))
  {
    assert CharAt(fen, row, 8) == '/';
  }

  /** The placement character in row `row`, column `col` is that of the
      square on file `col` of rank `7 - row`. */
  lemma SquareChar(b: seq<nat>, fen: string, row: nat, col: nat, sq: int)
    requires Shows(b, fen) && row < 8 && col < 8 && sq == ConvertFR(col, 7 - row)
    ensures OnBoard(sq) && b[sq] <= bK && fen[9 * row + col] == CellChar(b[sq])
  {
    assert CharAt(fen, row, col) == CellChar(b[sq]);
    ConvertFRInverse(col, 7 - row);
    assert CellOk(sq, b[sq]);
  }

  /** From row `row`, column `col` of the placement field, with the board
      right on the squares already read, the loop ends at the space after the
      field with the board `b`. */
  lemma {:induction false} ReadPlacement(b: seq<nat>, a: seq<nat>, fen: string, row: nat, col: nat)
    requires Shows(b, fen) && |a| == LargeNC && row < 8 && col <= 8 && Agrees(a, b, 9 * row + col)
    ensures Walk(a, fen, 9 * row + col, col, 7 - row) == Ok((b, 71))
    decreases 71 - (9 * row + col)
  {
    if col == 8 && row == 7 {
      ReadAll(b, a);
      assert CharAt(fen, 7, 8) == ' ';
    } else if col == 8 {
      ReadSlash(b, a, row);
      ReadPlacement(b, a, fen, row + 1, 0);
      ReadRowEnd(b, a, fen, row);
    } else {
      var sq := ConvertFR(col, 7 - row);
      ReadOne(b, a, row, col, sq);
      ReadPlacement(b, a[sq := b[sq]], fen, row, col + 1);
      SquareChar(b, fen, row, col, sq);
      if b[sq] == EMPTY {
        assert Empties(a, col, 7 - row, 1) == Ok(a[sq := EMPTY]);
      } else {
        PieceCharCode(b[sq]);
      }
    }
  }

  // ---------------------------------------------------------------------
  // The other fields read back
  // ---------------------------------------------------------------------

  /** The rights the letters of `s` grant together. */
  function Grants(s: string): bv8 {
    if |s| == 0 then 0 else RightOf(s[0]) | Grants(s[1..])
  }

  lemma {:induction false} GrantsAppend(s: string, u: string)
    ensures Grants(s + u) == Grants(s) | Grants(u)
  {
    if |s| == 0 {
      assert s + u == u;
    } else {
      assert (s + u)[0] == s[0] && (s + u)[1..] == s[1..] + u;
      GrantsAppend(s[1..], u);
      OrAssociates(RightOf(s[0]), Grants(s[1..]), Grants(u));
    }
  }

  lemma OrAssociates(x: bv8, y: bv8, z: bv8)
    ensures x | (y | z) == (x | y) | z
  {
  }

  /** The castling field names exactly the rights held. */
  lemma CastleGrants(perm: bv8)
    requires perm <= 15 && perm != 0
    ensures Grants(CastleText(perm)) == perm
  {
    var k: string := if perm & WKC != 0 then "K" else "";
    var q: string := if perm & WQC != 0 then "Q" else "";
    var k': string := if perm & BKC != 0 then "k" else "";
    var q': string := if perm & BQC != 0 then "q" else "";
    GrantsAppend(k, q);
    GrantsAppend(k + q, k');
    GrantsAppend(k + q + k', q');
    assert Grants("K") == WKC && Grants("Q") == WQC && Grants("k") == BKC && Grants("q") == BQC;
  }

  /** The castling field is one to four characters, none a space, and it
      starts with `-` only when no right is held. */
  lemma CastleShape(perm: bv8)
    requires perm <= 15
    ensures 1 <= |CastleText(perm)| <= 4 && ' ' !in CastleText(perm)
    ensures (CastleText(perm)[0] == '-') <==> perm == 0
  {
  }

  /** The castling loop over the letters `s` followed by a space ORs in
      their rights and stops at that space. */
  lemma {:induction false} RightsOver(fen: string, m: nat, s: string, p: bv8)
    requires m + |s| < |fen| && fen[m..m + |s|] == s && ' ' !in s && fen[m + |s|] == ' '
    ensures Rights(fen, m, p) == (p | Grants(s), m + |s|)
    decreases |s|
  {
    if |s| == 0 {
      assert Rights(fen, m, p) == (p, m);
    } else {
      var c, rest := s[0], s[1..];
      assert fen[m] == c && c != ' ' && ' ' !in rest;
      assert fen[m + 1..m + 1 + |rest|] == rest;
      assert Rights(fen, m, p) == Rights(fen, m + 1, p | RightOf(c));
      RightsOver(fen, m + 1, rest, p | RightOf(c));
      OrAssociates(p, RightOf(c), Grants(rest));
    }
  }

  /** The en-passant field reads back as the square. */
  lemma EnPasBack(fen: string, e: nat, enPas: nat)
    requires enPas == NO_SQ || OnBoard(enPas)
    requires e + |EnPasText(enPas)| == |fen| && fen[e..] == EnPasText(enPas)
    ensures EnPasField(fen, e) == Ok(enPas)
  {
    assert fen[e] == fen[e..][0];
    if enPas != NO_SQ {
      OnBoardIsConvertFR(enPas);
      assert fen[e + 1] == fen[e..][1];
    }
  }

  /** `c` is a castling field for `perm`: `-` when there are no rights,
      otherwise letters without a space that grant exactly `perm`. */
  predicate CastleForm(c: string, perm: bv8) {
    if perm == 0 then c == "-"
    else 1 <= |c| && c[0] != '-' && ' ' !in c && Grants(c) == perm
  }

  /** The text `ToFen` writes for rights `perm` is a castling field for them. */
  lemma CastleTextForm(perm: bv8)
    requires perm <= 15
    ensures CastleForm(CastleText(perm), perm)
  {
    CastleShape(perm);
    if perm != 0 {
      CastleGrants(perm);
    }
  }

  /** A castling field `c` that is `-` exactly when there are no rights,
      and whose letters grant `perm` otherwise, reads back as `perm` up to
      the space after it. */
  lemma CastleBack(fen: string, c: string, perm: bv8)
    requires CastleForm(c, perm) && 75 + |c| <= |fen|
    requires fen[74..74 + |c|] == c && fen[74 + |c|] == ' '
    ensures CastleField(fen, 74) == (perm, 74 + |c|)
  {
    assert fen[74] == c[0];
    if perm != 0 {
      RightsOver(fen, 74, c, 0);
    }
  }

  /** The side, castling and en-passant fields written by `ToFen` after the
      space at 71 read back as they were. */
  lemma ReadTail(fen: string, side: nat, perm: bv8, enPas: nat)
    requires side <= BOTH && perm <= 15 && (enPas == NO_SQ || OnBoard(enPas))
    requires |fen| == 75 + |CastleText(perm)| + |EnPasText(enPas)|
    requires fen[72] == SideChar[side] && fen[74..74 + |CastleText(perm)|] == CastleText(perm)
    requires fen[74 + |CastleText(perm)|] == ' ' && fen[75 + |CastleText(perm)|..] == EnPasText(enPas)
    ensures Tail(fen, 71) == Ok((side, perm, enPas))
  {
    CastleTextForm(perm);
    CastleBack(fen, CastleText(perm), perm);
    EnPasBack(fen, 75 + |CastleText(perm)|, enPas);
  }

  // ---------------------------------------------------------------------
  // The round trip
  // ---------------------------------------------------------------------

  /** Where the fields of a record with a 71-character placement field sit. */
  lemma Layout(p: string, side: char, c: string, e: string)
    requires |p| == 71
    ensures var fen := p + " " + [side] + " " + c + " " + e;
      && |fen| == 75 + |c| + |e|
      && fen[..71] == p && fen[71] == ' ' && fen[72] == side
      && fen[74..74 + |c|] == c && fen[74 + |c|] == ' ' && fen[75 + |c|..] == e
  {
    var fen := p + " " + [side] + " " + c + " " + e;
    assert fen[..71] == p;
    assert fen[74..74 + |c|] == c;
    assert fen[75 + |c|..] == e;
  }

  /** Where the fields of `ToFen(pos)` sit. */
  lemma ToFenLayout(pos: Position)
    requires Printable(pos)
    ensures var fen, c := ToFen(pos), CastleText(pos.castlePerm);
      && |fen| == 75 + |c| + |EnPasText(pos.enPas)|
      && fen[..71] == PlacementText(pos.board) && fen[71] == ' '
      && fen[72] == SideChar[pos.side] && fen[74..74 + |c|] == c
      && fen[74 + |c|] == ' ' && fen[75 + |c|..] == EnPasText(pos.enPas)
  {
    Layout(PlacementText(pos.board), SideChar[pos.side], CastleText(pos.castlePerm), EnPasText(pos.enPas));
  }

  /** Before the loop no square has been read: the empty board agrees with
      any framed board on the frame. */
  lemma StartAgrees(b: seq<nat>)
    requires Framed(b)
    ensures |EmptyBoard| == LargeNC && Agrees(EmptyBoard, b, 0)
  {
    EmptyBoardAt(0);
    forall sq | 0 <= sq < LargeNC && !Pending(sq, 0)
      ensures EmptyBoard[sq] == b[sq]
    {
      EmptyBoardAt(sq);
      assert CellOk(sq, b[sq]);
      if OnBoard(sq) {
        OnBoardIsConvertFR(sq);
      }
    }
  }

  /** The placement field `b` shows reads back as `b`, up to the space at 71. */
  lemma PlacementBack(b: seq<nat>, fen: string)
    requires Shows(b, fen)
    ensures Walk(EmptyBoard, fen, 0, FILE_A, RANK_8) == Ok((b, 71))
  {
    StartAgrees(b);
    ReadPlacement(b, EmptyBoard, fen, 0, 0);
  }

  /** `parseFEN` of a text whose placement field reads as `b` up to the
      space at `i` and whose other fields read as `side`, `perm` and
      `enPas` loads those fields, when `b` fits the piece lists. */
  lemma ParseFenOk(env: Env, pos: Position, fen: string, b: seq<nat>, i: nat, side: nat, perm: bv8, enPas: nat)
    requires EnvOk(env) && SlotsOk(pos.pieceList)
    requires i < |fen| && Walk(EmptyBoard, fen, 0, FILE_A, RANK_8) == Ok((b, i))
    requires Tail(fen, i) == Ok((side, perm, enPas))
    requires Framed(b) && Capacity(b) && perm <= 15 && enPas < LargeNC
    ensures ParseFen(env, pos, fen) == Ok(Loaded(env, pos, b, side, perm, enPas))
  {
  }

  /** The text `ToFen` writes parses back to the board, side, castling
      rights and en-passant square it was written from. */
  lemma ToFenParses(env: Env, pos: Position, fen: string)
    requires EnvOk(env) && SlotsOk(pos.pieceList) && Printable(pos)
    requires pos.castlePerm <= 15 && Capacity(pos.board) && fen == ToFen(pos)
    ensures pos.enPas < LargeNC
    ensures ParseFen(env, pos, fen) == Ok(Loaded(env, pos, pos.board, pos.side, pos.castlePerm, pos.enPas))
  {
    ToFenLayout(pos);
    ShowsPlacement(pos.board, fen);
    PlacementBack(pos.board, fen);
    ReadTail(fen, pos.side, pos.castlePerm, pos.enPas);
    ParseFenOk(env, pos, fen, pos.board, 71, pos.side, pos.castlePerm, pos.enPas);
  }

  /** A valid position can be written: its side is a colour and its
      en-passant square is unset or on the board. */
  lemma ValidPrintable(env: Env, pos: Position)
    requires Valid(env, pos)
    ensures Printable(pos) && Capacity(pos.board) && pos.castlePerm <= 15 && SlotsOk(pos.pieceList)
  {
    GeometryAt(pos.enPas);
    MakeMove.CapacityOf(pos);
  }

  /** Loading keeps the fields it is given, the hash and the history. */
  lemma LoadedSame(env: Env, pos: Position, p: Position, r: Position)
    requires EnvOk(env) && WellFormed(pos) && pos.posKey == Generate(env, pos) && Capacity(pos.board)
    requires p == Fields(env, pos, pos.board, pos.side, pos.castlePerm, pos.enPas)
    requires Update.Shaped(p) && Update.Room(p, 0) && r == Update.Update(p)
    ensures r.board == pos.board && r.side == pos.side && r.castlePerm == pos.castlePerm
    ensures r.enPas == pos.enPas && r.posKey == pos.posKey && r.history == pos.history
  {
    MakeMove.GenerateDepends(env, pos, p);
  }

  /** Loading a valid position's fields gives a position that passes `check`. */
  lemma LoadedChecks(env: Env, pos: Position, p: Position, r: Position)
    requires EnvOk(env) && WellFormed(pos) && IsSideValid(pos.side) && pos.posKey == Generate(env, pos)
    requires EnPasOk(pos) && KingsOk(pos) && Capacity(pos.board)
    requires p == Fields(env, pos, pos.board, pos.side, pos.castlePerm, pos.enPas)
    requires Update.Shaped(p) && Update.Room(p, 0) && r == Update.Update(p)
    requires r.board == pos.board && r.side == pos.side && r.castlePerm == pos.castlePerm
    requires r.enPas == pos.enPas && r.posKey == pos.posKey
    ensures Valid(env, r)
  {
    Update.UpdateKings(p, pos.kings[WHITE], pos.kings[BLACK]);
    MakeMove.GenerateDepends(env, pos, r);
  }

  /** `r` passes `check` and agrees with `pos` on everything FEN records and
      everything derived from the board; its clocks are zero. The order of
      the piece lists and the king squares of a board with two kings of a
      colour may differ. */
  predicate Restored(env: Env, pos: Position, r: Position) {
    && Valid(env, r)
    && r.board == pos.board && r.side == pos.side && r.castlePerm == pos.castlePerm
    && r.enPas == pos.enPas && r.posKey == pos.posKey && r.history == pos.history
    && r.pawns == pos.pawns && r.material == pos.material && r.bigPiece == pos.bigPiece
    && r.majPiece == pos.majPiece && r.minPiece == pos.minPiece
    && r.fiftyMove == 0 && r.ply == 0 && r.hisPly == 0
  }

  /** Loading a valid position's own fields restores it. */
  lemma LoadedValid(env: Env, pos: Position, r: Position)
    requires Valid(env, pos) && Capacity(pos.board)
    requires r == Loaded(env, pos, pos.board, pos.side, pos.castlePerm, pos.enPas)
    ensures Restored(env, pos, r)
  {
    var p := Fields(env, pos, pos.board, pos.side, pos.castlePerm, pos.enPas);
    Update.UpdateConsistent(p);
    LoadedSame(env, pos, p, r);
    LoadedChecks(env, pos, p, r);
    MakeMove.Determined(pos, r);
  }

  /** Writing a valid position as FEN and parsing it back into the same
      object restores it: the board, the side, the castling rights, the
      en-passant square, the hash, the history and every board-derived
      counter come back, and the result passes `check`. The clocks are
      zeroed, as `reset` leaves them. */
  lemma FenRoundTrip(env: Env, pos: Position)
    requires Valid(env, pos)
    ensures Printable(pos)
    ensures ParseFen(env, pos, ToFen(pos)).Ok?
    ensures Restored(env, pos, ParseFen(env, pos, ToFen(pos)).value)
  {
    ValidPrintable(env, pos);
    ToFenParses(env, pos, ToFen(pos));
    LoadedValid(env, pos, Loaded(env, pos, pos.board, pos.side, pos.castlePerm, pos.enPas));
  }
}
