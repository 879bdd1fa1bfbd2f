/** A concrete position and move that meet everything `makeMove` is written
    for: the two kings alone on E1 and E8, white to move, loaded the way
    `parseFEN` loads a position, and the white king stepping to E2. */
module Witness {
  import opened Constants
  import opened Ranges
  import opened Moves
  import opened Board
  import opened Counting
  import MoveBoard
  import Update
  import Fen
  import MakeMove

  /** E2, the square in front of the white king. */
  const E2: nat := E1 + 10

  /** The empty board with a white king on E1 and a black king on E8. */
  function KingsBoard(): (b: seq<nat>)
    ensures |b| == LargeNC
  {
    EmptyBoardAt(0);
    EmptyBoard[E1 := wK][E8 := bK]
  }

  /** What the two-king board holds on every cell. */
  lemma KingsBoardAt(sq: nat)
    requires sq < LargeNC
    ensures KingsBoard()[sq] == if sq == E1 then wK else if sq == E8 then bK else if OnBoard(sq) then EMPTY else OFFBOARD
  {
    EmptyBoardAt(sq);
  }

  /** The two-king board keeps the frame and holds one piece of each king
      kind and nothing else. */
  lemma KingsBoardShape()
    ensures Framed(KingsBoard()) && Capacity(KingsBoard())
  {
    var b := KingsBoard();
    forall sq | 0 <= sq < LargeNC
      ensures CellOk(sq, b[sq])
    {
      KingsBoardAt(sq);
    }
    forall p | wP <= p <= bK
      ensures Count(b, p) <= 10
    {
      EmptyBoardAt(0);
      TallyEmptyBoard(CountW(p), LargeNC);
      CountPlaced(EmptyBoard, E1, wK, p);
      CountPlaced(EmptyBoard[E1 := wK], E8, bK, p);
    }
  }

  /** The two-king position with white to move, no castling rights and no
      en-passant square, loaded over the board object `base`. */
  function KingsOnly(env: Env, base: Position): Position
    requires EnvOk(env) && SlotsOk(base.pieceList)
  {
    KingsBoardShape();
    Fen.Loaded(env, base, KingsBoard(), WHITE, 0, NO_SQ)
  }

  /** The white king's step from E1 to E2. */
  function KingStep(): Move {
    NewMove(E1, E2, EMPTY, EMPTY, 0)
  }

  /** The two-king position passes `check` and keeps the list and frame
      invariants; it holds the two-king board with white to move and the
      white king recorded on E1. */
  lemma KingsOnlyValid(env: Env, base: Position)
    requires EnvOk(env) && SlotsOk(base.pieceList)
    ensures Valid(env, KingsOnly(env, base))
    ensures KingsOnly(env, base).board == KingsBoard() && KingsOnly(env, base).side == WHITE
    ensures KingsOnly(env, base).kings[WHITE] == E1
  {
    KingsBoardShape();
    var p := Fen.Fields(env, base, KingsBoard(), WHITE, 0, NO_SQ);
    var r := KingsOnly(env, base);
    KingsBoardAt(E1);
    KingsBoardAt(E8);
    Update.UpdateKings(p, E1, E8);
    assert r == Update.Update(p);
    MakeMove.GenerateDepends(env, p, r);
    KingsBoardAt(r.kings[WHITE]);
  }

  /** The king step fits the two-king board for white: the white king moves
      onto an empty square, capturing and promoting nothing. */
  lemma KingStepFits()
    ensures MoveBoard.MoveFits(KingsBoard(), MoveBoard.Parts(KingStep()), WHITE)
    ensures MoveBoard.Parts(KingStep()).from == E1 && MoveBoard.Parts(KingStep()).promoted == EMPTY
  {
    KingsBoardAt(E1);
    KingsBoardAt(E2);
    MoveBoard.PartsOfNewMove(E1, E2, EMPTY, EMPTY, 0);
  }

  /** The preconditions of `MakeMove.MakeMove` can be met: for every set of
      keys and every board object, the two-king position is valid, the king
      step fits it and the white king's square is tracked. */
  lemma KingsOnlyPlayable(env: Env, base: Position)
    requires EnvOk(env) && SlotsOk(base.pieceList)
    ensures MakeMove.Playable(env, KingsOnly(env, base), KingStep())
    ensures MakeMove.KingTracked(KingsOnly(env, base), KingStep())
  {
    KingsOnlyValid(env, base);
    KingStepFits();
  }
}
