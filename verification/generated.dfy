/** How the pawn generator of src/move.cpp feeds `makeMove` of
    src/makemove.cpp: a move the generator appends for a valid position
    (`Board.Valid`: `check` plus the list and frame invariants) is a move
    `makeMove` is written for, once the four things the generator never
    looks at hold as well. */
module Generated {
  import opened Constants
  import opened Ranges
  import opened Moves
  import opened Board
  import MoveBoard
  import MoveGen
  import MakeMove

  /** What `makeMove` relies on and the generator does not test about the
      board: the captured piece is not a king (`IsOpponent` admits kings), and
      an en-passant capture lands on an empty square behind the enemy pawn
      that double pushed. */
  predicate BoardUnchecked(b: seq<nat>, side: nat, f: MoveGen.Fields)
    requires |b| == LargeNC && IsSideValid(side)
  {
    && f.captured != wK && f.captured != bK
    && (f.enPas ==>
          && OnBoard(f.to) && b[f.to] == EMPTY
          && b[MoveBoard.EpVictim(f.to, side)] == MoveBoard.PawnOf(MoveBoard.Other(side)))
  }

  /** The same for a position, together with a free slot in the ten-entry
      list of a promotion piece. */
  predicate Unchecked(pos: Position, f: MoveGen.Fields)
    requires WellFormed(pos) && IsSideValid(pos.side)
  {
    && BoardUnchecked(pos.board, pos.side, f)
    && (f.promoted != EMPTY ==> f.promoted < 13 && pos.pieceNum[f.promoted] < 10)
  }

  /** The parts `makeMove` reads from a move whose getters report `f`. */
  function PartsOf(f: MoveGen.Fields): MoveBoard.MoveParts {
    MoveBoard.MoveParts(f.from, f.to, f.captured, f.promoted, f.castle, f.enPas, f.pawnStart)
  }

  /** A move allowed for a pawn of the side to move fits the board in the
      sense of `makeMove`, when it takes no king and its en-passant capture
      is a real one. */
  lemma AllowedFits(b: seq<nat>, enPas: nat, sq: nat, side: nat, f: MoveGen.Fields)
    requires Framed(b) && OnBoard(sq) && IsSideValid(side) && b[sq] == MoveBoard.PawnOf(side)
    requires MoveGen.Allowed(b, enPas, sq, side == WHITE, true, f)
    requires BoardUnchecked(b, side, f)
    ensures MoveBoard.MoveFits(b, PartsOf(f), side)
  {
    var mv, white := PartsOf(f), side == WHITE;
    MoveGen.OnBoardBounds(sq);
    var push, double := MoveGen.Ahead(sq, white, 10), MoveGen.Ahead(sq, white, 20);
    assert CellOk(push, b[push]) && CellOk(double, b[double]);
    assert OnBoard(mv.to);
    if f.promoted != EMPTY {
      MoveGen.PromotionCodes(white);
      assert MoveBoard.PromotionFits(b, mv, side);
    }
    if f.enPas {
      var victim := MoveBoard.EpVictim(f.to, side);
      assert CellOk(victim, b[victim]);
      assert MoveBoard.EnPasFits(b, mv, side);
    }
  }

  /** Every live entry of the mover's pawn list is a board square holding a
      pawn of the side to move. */
  lemma MoverPawnAt(env: Env, pos: Position, k: nat)
    requires Valid(env, pos) && k < |MoveGen.MoverPawns(pos)|
    ensures OnBoard(MoveGen.MoverPawns(pos)[k])
    ensures pos.board[MoveGen.MoverPawns(pos)[k]] == MoveBoard.PawnOf(pos.side)
  {
    var p := MoveGen.PawnOf(pos.side == WHITE);
    assert ListMatches(pos, p);
    var sq := pos.pieceList[p][k];
    assert MoveGen.MoverPawns(pos)[k] == sq;
    assert pos.board[sq] == p;
    assert CellOk(sq, pos.board[sq]);
  }

  /** A move the generator appends for the pawn `MoverPawns(pos)[k]` of a
      valid position fits the board for the side to move and has
      room for its promotion, which is what `makeMove` is written for, provided
      the conditions of `Unchecked` hold. */
  lemma GeneratedPlayable(env: Env, pos: Position, m: Move, k: nat)
    requires Valid(env, pos) && MoveGen.AllOnBoard(MoveGen.MoverPawns(pos)) && k < |MoveGen.MoverPawns(pos)|
    requires MoveGen.Allowed(pos.board, pos.enPas, MoveGen.MoverPawns(pos)[k], pos.side == WHITE, true, MoveGen.Decode(m))
    requires Unchecked(pos, MoveGen.Decode(m))
    ensures MakeMove.Playable(env, pos, m)
  {
    var f := MoveGen.Decode(m);
    MoverPawnAt(env, pos, k);
    AllowedFits(pos.board, pos.enPas, MoveGen.MoverPawns(pos)[k], pos.side, f);
    assert MoveBoard.Parts(m) == PartsOf(f);
  }

  /** The moves appended after `list` that meet `Unchecked` are all
      playable, when each of them is allowed for one of the mover's pawns. */
  lemma AppendedPlayable(env: Env, pos: Position, list: MoveList, r: MoveList)
    requires Valid(env, pos) && MoveGen.AllOnBoard(MoveGen.MoverPawns(pos)) && |list| <= |r|
    requires forall f :: f in MoveGen.Decoded(r[|list|..]) ==>
      exists k :: 0 <= k < |MoveGen.MoverPawns(pos)| &&
        MoveGen.Allowed(pos.board, pos.enPas, MoveGen.MoverPawns(pos)[k], pos.side == WHITE, true, f)
    ensures forall i :: |list| <= i < |r| && Unchecked(pos, MoveGen.Decode(r[i])) ==> MakeMove.Playable(env, pos, r[i])
  {
    var added := r[|list|..];
    forall i | |list| <= i < |r| && Unchecked(pos, MoveGen.Decode(r[i]))
      ensures MakeMove.Playable(env, pos, r[i])
    {
      var f := MoveGen.Decode(r[i]);
      assert added[i - |list|] == r[i];
      assert f == MoveGen.Decoded(added)[i - |list|];
      assert f in MoveGen.Decoded(added);
      var k :| 0 <= k < |MoveGen.MoverPawns(pos)|
        && MoveGen.Allowed(pos.board, pos.enPas, MoveGen.MoverPawns(pos)[k], pos.side == WHITE, true, f);
      GeneratedPlayable(env, pos, r[i], k);
    }
  }

  /** `GenerateAllMoves` on a valid position: every move it
      appends that meets `Unchecked` is a move `makeMove` is written for. */
  method GenerateForMakeMove(env: Env, list: MoveList, pos: Position) returns (r: MoveList)
    requires Valid(env, pos) && MoveGen.CanGenerate(list, pos)
    ensures |list| <= |r| <= MaxMoves && r[..|list|] == list
    ensures forall i :: |list| <= i < |r| && Unchecked(pos, MoveGen.Decode(r[i])) ==> MakeMove.Playable(env, pos, r[i])
  {
    r := MoveGen.GenerateAllMoves(list, pos);
    AppendedPlayable(env, pos, list, r);
  }
}
