/** The older table header h/board_constants.h. It builds the same squares,
    files, masks and conversions as include/board_constants.hpp, but its rank
    table goes through the descending columnar builder of h/util.h, its king is
    worth 50000, and it adds `countBit`. */
module ConstantsH {
  import opened Arith
  import Util
  import UtilH
  import opened Constants
  import opened Bitboard

  // ---------------------------------------------------------------------
  // bRanks
  // ---------------------------------------------------------------------

  /** `wrapped_columnar_sequence` ignores its bounds and always yields the
      h/util.h columnar sequence of ranks `RANK_1..RANK_8`, eight of each. */
  const Ranks64H: seq<nat> := UtilH.ColumnarSequence(RANK_1, RANK_8, 8)

  /** `bRanks` of h/board_constants.h. */
  const BRanksH: seq<nat> := Shell64(Ranks64H)

  /** On the board the h/board_constants.h rank table holds `7 - rank`: rank 1
      reads as rank 8 and the other way round. Off the board it holds
      `OFFBOARD` like the include/ table. */
  lemma BRanksHMirrored(sq: int)
    requires 0 <= sq < LargeNC
    ensures |BRanksH| == LargeNC
    ensures BRanksH[sq] == (if OnBoard(sq) then RANK_8 - RankOf(sq) else OFFBOARD)
  {
    Shell64Check(Ranks64H);
    CoreOfOnBoard(sq);
    if OnBoard(sq) {
      var k := 8 * RankOf(sq) + FileOf(sq);
      DivModUnique(k, 8, RankOf(sq), FileOf(sq));
    }
  }

  /** The two rank tables agree exactly on the off-board squares and disagree on
      every square of the board: the h/ table gives A1 rank 8 and H8 rank 1. */
  lemma BRanksHDisagree(sq: int)
    requires 0 <= sq < LargeNC
    ensures BRanksH[sq] == BRanks[sq] <==> !OnBoard(sq)
  {
    BRanksHMirrored(sq);
    GeometryAt(sq);
    if OnBoard(sq) {
      MirrorMoves(BRanksH[sq], BRanks[sq], RankOf(sq));
    }
  }

  lemma MirrorMoves(a: int, b: int, r: int)
    requires a == RANK_8 - r && b == r
    ensures a != b
  {
  }

  lemma BRanksHExample()
    ensures BRanksH[A1] == RANK_8 && BRanks[A1] == RANK_1
  {
    BRanksHMirrored(A1);
    GeometryAt(A1);
  }

  // ---------------------------------------------------------------------
  // countBit
  // ---------------------------------------------------------------------

  /** The number of one bits of `bb` among bits `0..n-1`. */
  function CountBelow(bb: bv64, n: nat): nat
    requires n <= 64
  {
    if n == 0 then 0 else CountBelow(bb, n - 1) + (if IsSet(bb, n - 1) then 1 else 0)
  }

  /** `countBit`: the population count of a bitboard. */
  function CountBit(bb: bv64): nat {
    CountBelow(bb, 64)
  }

  lemma {:induction false} CountBelowBound(bb: bv64, n: nat)
    requires n <= 64
    ensures CountBelow(bb, n) <= n
  {
    if n > 0 {
      CountBelowBound(bb, n - 1);
    }
  }

  /** Clearing a one bit below `n` lowers the count below `n` by one; clearing
      a bit at or above `n` leaves it. */
  lemma {:induction false} CountBelowClear(bb: bv64, k: nat, n: nat)
    requires n <= 64 && k < 64 && IsSet(bb, k)
    ensures CountBelow(ClearBit(bb, k), n) == CountBelow(bb, n) - (if k < n then 1 else 0)
    ensures k < n ==> CountBelow(bb, n) >= 1
  {
    if n > 0 {
      CountBelowClear(bb, k, n - 1);
      ClearBitBits(bb, k, n - 1);
    }
  }

  lemma {:induction false} CountBelowOfZero(n: nat)
    requires n <= 64
    ensures CountBelow(0, n) == 0
  {
    if n > 0 {
      CountBelowOfZero(n - 1);
      assert !Bit(0, (n - 1) as bv6);
    }
  }

  /** `countBit` is at most 64, is zero exactly on the empty bitboard, and every
      `popBit` of a nonempty bitboard lowers it by one; so the `while (bb)
      popBit(bb)` loops of `Board::check` run `countBit(bb)` times. */
  lemma CountBitPopBit(bb: bv64)
    ensures CountBit(bb) <= 64
    ensures CountBit(bb) == 0 <==> bb == 0
    ensures bb != 0 ==> CountBit(PopBit(bb).1) == CountBit(bb) - 1
  {
    CountBelowBound(bb, 64);
    if bb == 0 {
      CountBelowOfZero(64);
    } else {
      var k := PopBit(bb).0;
      CountBelowClear(bb, k, 64);
    }
  }

  /** Setting a bit that was clear raises the population count by one. */
  lemma CountBitSetBit(bb: bv64, k: nat)
    requires k < 64 && !IsSet(bb, k)
    ensures CountBit(SetBit(bb, k)) == CountBit(bb) + 1
  {
    var b := SetBit(bb, k);
    SetBitBits(bb, k, k);
    ClearSetBit(bb, k);
    CountBelowClear(b, k, 64);
  }
}
