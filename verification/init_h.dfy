/** The run-time table builders of h/init.cpp: `initBoards` fills the
    120-square numbering and `initBitMasks` the single-bit masks. The Zobrist
    key generator `initHash` draws from a random device and is not modelled. */
module Init {
  import opened Arith
  import opened Constants
  import opened Bitboard

  /** The 64-square number of an on-board padded square, rank by rank. */
  function Index64(sq: int): int {
    8 * RankOf(sq) + FileOf(sq)
  }

  /** The value `initBoards` writes before numbering the board: `regularNC + 1`. */
  const Unnumbered: int := RegularNC + 1

  /** Two on-board squares with the same 64-square number are the same square. */
  lemma Index64Injective(a: int, b: int)
    requires OnBoard(a) && OnBoard(b) && Index64(a) == Index64(b)
    ensures a == b
  {
    OnBoardIsConvertFR(a);
    OnBoardIsConvertFR(b);
    DivModUnique(Index64(a), 8, RankOf(a), FileOf(a));
    DivModUnique(Index64(b), 8, RankOf(b), FileOf(b));
  }

  /** `initBoards`: fill all 120 entries with `regularNC + 1`, then walk the
      ranks upwards and the files left to right, writing the running count
      `sq64` at `convertFR(file, rank)`. */
  method InitBoards() returns (board120: seq<int>)
    ensures |board120| == LargeNC
    ensures forall file, rank :: 0 <= file < 8 && 0 <= rank < 8 ==>
      board120[ConvertFR(file, rank)] == 8 * rank + file
    ensures forall sq :: 0 <= sq < LargeNC && !OnBoard(sq) ==> board120[sq] == Unnumbered
  {
    board120 := seq(LargeNC, _ => Unnumbered);
    var rank, sq64 := RANK_1, 0;
    while rank <= RANK_8
      invariant 0 <= rank <= 8 && sq64 == 8 * rank
      invariant |board120| == LargeNC
      invariant forall sq :: 0 <= sq < LargeNC ==>
        board120[sq] == (if OnBoard(sq) && Index64(sq) < sq64 then Index64(sq) else Unnumbered)
    {
      var file := FILE_A;
      while file <= FILE_H
        invariant 0 <= file <= 8 && sq64 == 8 * rank + file
        invariant |board120| == LargeNC
        invariant forall sq :: 0 <= sq < LargeNC ==>
          board120[sq] == (if OnBoard(sq) && Index64(sq) < sq64 then Index64(sq) else Unnumbered)
      {
        var sq := ConvertFR(file, rank);
        ConvertFRInverse(file, rank);
        forall s | 0 <= s < LargeNC && OnBoard(s) && Index64(s) == sq64
          ensures s == sq
        {
          Index64Injective(s, sq);
        }
        board120 := board120[sq := sq64];
        file, sq64 := file + 1, sq64 + 1;
      }
      rank := rank + 1;
    }
    forall file, rank | 0 <= file < 8 && 0 <= rank < 8
      ensures board120[ConvertFR(file, rank)] == 8 * rank + file
    {
      ConvertFRInverse(file, rank);
      DivModUnique(8 * rank + file, 8, rank, file);
    }
    forall sq | 0 <= sq < LargeNC && OnBoard(sq)
      ensures Index64(sq) < 64
    {
      OnBoardIsConvertFR(sq);
    }
  }

  /** On the board `initBoards` builds the same numbering as the compile-time
      `Board120` of include/board_constants.hpp; off the board it leaves 65
      where that table holds `OFFBOARD` (100). */
  lemma InitBoardsAgree(board120: seq<int>, sq: int)
    requires |board120| == LargeNC && 0 <= sq < LargeNC
    requires forall file, rank :: 0 <= file < 8 && 0 <= rank < 8 ==>
      board120[ConvertFR(file, rank)] == 8 * rank + file
    requires forall s :: 0 <= s < LargeNC && !OnBoard(s) ==> board120[s] == Unnumbered
    ensures OnBoard(sq) ==> board120[sq] == Board120[sq]
    ensures !OnBoard(sq) ==> board120[sq] == 65 && Board120[sq] == OFFBOARD
  {
    GeometryAt(sq);
    if OnBoard(sq) {
      OnBoardIsConvertFR(sq);
      var file, rank := FileOf(sq), RankOf(sq);
      assert sq == ConvertFR(file, rank);
      assert board120[sq] == 8 * rank + file;
      assert Board120[sq] == 8 * rank + file;
    } else {
      assert board120[sq] == Unnumbered;
    }
  }

  /** `initBitMasks`: `setMask[i] = 0 | (1 << i)` and `clearMask[i] = ~setMask[i]`
      for the 64 squares. */
  method InitBitMasks() returns (setMask: seq<bv64>, clearMask: seq<bv64>)
    ensures |setMask| == |clearMask| == RegularNC
    ensures forall i :: 0 <= i < RegularNC ==> setMask[i] == SetMask(i)
    ensures forall i :: 0 <= i < RegularNC ==> clearMask[i] == ClearMask(i)
  {
    setMask, clearMask := [], [];
    var i := 0;
    while i < RegularNC
      invariant 0 <= i <= RegularNC && |setMask| == |clearMask| == i
      invariant forall j :: 0 <= j < i ==> setMask[j] == SetMask(j)
      invariant forall j :: 0 <= j < i ==> clearMask[j] == ClearMask(j)
    {
      var m := SetBit(0, i);
      SetBitOfEmpty(i);
      setMask := setMask + [m];
      clearMask := clearMask + [!m];
      i := i + 1;
    }
  }

  /** Each run-time mask holds exactly its own bit and the clear mask is its
      complement, so the two are disjoint and together cover all 64 bits: the
      values the mask tests expect, which the compile-time generators miss. */
  lemma InitBitMasksAgree(i: nat, j: nat)
    requires i < 64 && j < 64
    ensures IsSet(SetMask(i), j) <==> i == j
    ensures IsSet(ClearMask(i), j) <==> i != j
    ensures SetMask(i) & ClearMask(i) == 0
    ensures SetMask(i) | ClearMask(i) == 0xFFFF_FFFF_FFFF_FFFF
  {
    SetBitOfEmpty(i);
    SetBitBits(0, i, j);
    assert !IsSet(0, j);
    MaskComplement(i as bv6, j as bv6);
  }
}
