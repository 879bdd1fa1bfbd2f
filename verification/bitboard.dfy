/** The bitboard helpers of include/board_constants.hpp: the single-bit masks,
    `setBit`, `clearBit` and the table-driven `popBit`. A bitboard is a 64-bit
    word whose bit `i` stands for square `i` of the 64-square numbering. */
module Bitboard {
  import Util

  // ---------------------------------------------------------------------
  // Bits at the machine level
  // ---------------------------------------------------------------------

  /** Bit `j` of `bb`, with a six-bit position as the shift amount. */
  predicate Bit(bb: bv64, j: bv6) {
    (bb >> j) & 1 == 1
  }

  /** The word with only bit `j` set. */
  function Mask(j: bv6): bv64 {
    (1 as bv64) << j
  }

  lemma OrOther(bb: bv64, sq: bv6, j: bv6)
    requires sq != j
    ensures Bit(bb | Mask(sq), j) == Bit(bb, j)
  {
  }

  lemma XorOther(bb: bv64, sq: bv6, j: bv6)
    requires sq != j
    ensures Bit(bb ^ Mask(sq), j) == Bit(bb, j)
  {
  }

  lemma AndNotIsXor(bb: bv64, sq: bv6)
    requires Bit(bb, sq)
    ensures bb & !Mask(sq) == bb ^ Mask(sq)
  {
  }

  lemma AndNotKeeps(bb: bv64, sq: bv6)
    requires !Bit(bb, sq)
    ensures bb & !Mask(sq) == bb
  {
  }

  /** Masking out bit `sq` keeps every other bit. */
  lemma AndNotOther(bb: bv64, sq: bv6, j: bv6)
    requires sq != j
    ensures Bit(bb & !Mask(sq), j) == Bit(bb, j)
  {
    if Bit(bb, sq) {
      AndNotIsXor(bb, sq);
      XorOther(bb, sq, j);
    } else {
      AndNotKeeps(bb, sq);
    }
  }

  lemma OrSelf(bb: bv64, sq: bv6)
    ensures Bit(bb | Mask(sq), sq)
  {
  }

  lemma AndNotSelf(bb: bv64, sq: bv6)
    ensures !Bit(bb & !Mask(sq), sq)
  {
  }

  lemma OrAndNot(bb: bv64, sq: bv6)
    requires Bit(bb, sq)
    ensures (bb & !Mask(sq)) | Mask(sq) == bb
  {
  }

  lemma AndNotOr(bb: bv64, sq: bv6)
    requires !Bit(bb, sq)
    ensures (bb | Mask(sq)) & !Mask(sq) == bb
  {
  }

  /** Distinct square indices are distinct shift amounts. */
  lemma PositionsDistinct(i: nat, j: nat)
    requires i < 64 && j < 64 && i != j
    ensures i as bv6 != j as bv6
  {
    Bv6Of(i);
    Bv6Of(j);
  }

  lemma Bv6Of(i: nat)
    requires i < 64
    ensures (i as bv6) as int == i
  {
  }

  // ---------------------------------------------------------------------
  // Masks, setBit and clearBit
  // ---------------------------------------------------------------------

  /** Bit `j` of the bitboard `bb` is one. */
  predicate IsSet(bb: bv64, j: nat)
    requires j < 64
  {
    Bit(bb, j as bv6)
  }

  /** `setMask` and `clearMask` as include/board_constants.hpp builds them. */
  const SetMaskAsWritten: seq<bv64> := Util.SequenceWithShift(0, 63)
  const ClearMaskAsWritten: seq<bv64> := Util.SequenceWithTildaShift(0, 63)

  /** The single-bit masks `1 << i` that the generator tests expect and
      h/init.cpp builds. */
  function SetMask(i: nat): bv64
    requires i < 64
  {
    Mask(i as bv6)
  }

  function ClearMask(i: nat): bv64
    requires i < 64
  {
    !SetMask(i)
  }

  /** The as-written `setMask` has no bit at index 0, and every as-written
      `clearMask` entry but the first and the last keeps only its own bit
      instead of clearing it. */
  lemma MasksAsWrittenWrong()
    ensures |SetMaskAsWritten| == |ClearMaskAsWritten| == 64
    ensures SetMaskAsWritten[0] == 0 && SetMask(0) == 1
    ensures forall i :: 0 < i < 64 ==> SetMaskAsWritten[i] == SetMask(i)
    ensures forall i :: 0 < i < 63 ==> ClearMaskAsWritten[i] == SetMask(i) != ClearMask(i)
    ensures ClearMaskAsWritten[0] == 0 && ClearMaskAsWritten[63] == ClearMask(63)
  {
    var s := Util.SequenceWithShift(0, 62);
    assert ClearMaskAsWritten == s + [!Mask(63)];
    forall i | 0 < i < 63
      ensures ClearMaskAsWritten[i] == SetMask(i) != ClearMask(i)
    {
      assert ClearMaskAsWritten[i] == s[i];
    }
  }

  /** `clearBit` with the as-written `clearMask`. */
  function ClearBitAsWritten(bb: bv64, sq: nat): bv64
    requires sq < 64
  {
    bb & ClearMaskAsWritten[sq]
  }

  /** With the as-written mask, clearing square 2 of a board holding squares 2
      and 3 removes square 3 and keeps square 2. */
  lemma ClearBitAsWrittenWrong()
    ensures ClearBitAsWritten(0xC, 2) == 0x4
    ensures ClearBit(0xC, 2) == 0x8
  {
    MasksAsWrittenWrong();
    assert ClearMaskAsWritten[2] == 0x4;
  }

  /** `setBit` with the intended masks. */
  function SetBit(bb: bv64, sq: nat): bv64
    requires sq < 64
  {
    bb | SetMask(sq)
  }

  /** `clearBit` with the intended masks. */
  function ClearBit(bb: bv64, sq: nat): bv64
    requires sq < 64
  {
    bb & ClearMask(sq)
  }

  lemma OrZero(sq: bv6)
    ensures 0 | Mask(sq) == Mask(sq)
  {
  }

  lemma MaskComplement(sq: bv6, j: bv6)
    ensures Bit(!Mask(sq), j) == !Bit(Mask(sq), j)
    ensures Mask(sq) & !Mask(sq) == 0 && Mask(sq) | !Mask(sq) == 0xFFFF_FFFF_FFFF_FFFF
  {
  }

  /** `setBit` on the empty bitboard gives the mask itself. */
  lemma SetBitOfEmpty(sq: nat)
    requires sq < 64
    ensures SetBit(0, sq) == SetMask(sq)
  {
    OrZero(sq as bv6);
  }

  /** `setBit` sets bit `sq` and keeps every other bit. */
  lemma SetBitBits(bb: bv64, sq: nat, j: nat)
    requires sq < 64 && j < 64
    ensures IsSet(SetBit(bb, sq), j) <==> j == sq || IsSet(bb, j)
  {
    if j == sq {
      OrSelf(bb, sq as bv6);
    } else {
      PositionsDistinct(sq, j);
      OrOther(bb, sq as bv6, j as bv6);
    }
  }

  /** `clearBit` clears bit `sq` and keeps every other bit. */
  lemma ClearBitBits(bb: bv64, sq: nat, j: nat)
    requires sq < 64 && j < 64
    ensures IsSet(ClearBit(bb, sq), j) <==> j != sq && IsSet(bb, j)
  {
    if j == sq {
      ClearBitSelf(bb, sq);
    } else {
      ClearBitOther(bb, sq, j);
    }
  }

  lemma ClearBitSelf(bb: bv64, sq: nat)
    requires sq < 64
    ensures !IsSet(ClearBit(bb, sq), sq)
  {
    AndNotSelf(bb, sq as bv6);
  }

  lemma ClearBitOther(bb: bv64, sq: nat, j: nat)
    requires sq < 64 && j < 64 && sq != j
    ensures IsSet(ClearBit(bb, sq), j) == IsSet(bb, j)
  {
    var s, t := sq as bv6, j as bv6;
    PositionsDistinct(sq, j);
    AndNotOther(bb, s, t);
    assert ClearBit(bb, sq) == bb & !Mask(s);
  }

  /** Setting then clearing a bit that was clear gives the board back. */
  lemma ClearSetBit(bb: bv64, sq: nat)
    requires sq < 64 && !IsSet(bb, sq)
    ensures ClearBit(SetBit(bb, sq), sq) == bb
  {
    AndNotOr(bb, sq as bv6);
  }

  /** Clearing then setting a bit that was set gives the board back. */
  lemma SetClearBit(bb: bv64, sq: nat)
    requires sq < 64 && IsSet(bb, sq)
    ensures SetBit(ClearBit(bb, sq), sq) == bb
  {
    OrAndNot(bb, sq as bv6);
  }

  // ---------------------------------------------------------------------
  // popBit
  // ---------------------------------------------------------------------

  /** `bitTable`: the bit index for each value of the folded multiply hash. */
  const BitTable: seq<nat> :=
    (([63, 30, 3, 32, 25, 41, 22, 33] + [15, 50, 42, 13, 11, 53, 19, 34])
     + ([61, 29, 2, 51, 21, 43, 45, 10] + [18, 47, 1, 54, 9, 57, 0, 35]))
    + (([62, 31, 40, 4, 49, 5, 52, 26] + [60, 6, 23, 44, 46, 27, 56, 16])
     + ([7, 39, 48, 24, 59, 14, 12, 55] + [38, 28, 58, 20, 37, 17, 36, 8]))

  /** The table index `popBit` computes from `b = bb ^ (bb - 1)`: the two
      halves folded into a 32-bit `unsigned`, multiplied by `0x783a9b23` with
      32-bit wrap-around, and the top six bits kept. */
  function FoldIndex(b: bv64): (i: nat)
    ensures i < 64
  {
    var fold := ((b & 0xFFFF_FFFF) ^ (b >> 32)) as bv32;
    ((fold * 0x783a_9b23) >> 26) as nat
  }

  /** The bits strictly below bit `k`. */
  function Below(k: bv6): bv64 {
    Mask(k) - 1
  }

  /** Bit `k` is the lowest one bit of `bb`. */
  predicate LowestAt(bb: bv64, k: bv6) {
    Bit(bb, k) && bb & Below(k) == 0
  }

  lemma BelowStep(bb: bv64, k: bv6)
    requires k < 63 && !Bit(bb, k) && bb & Below(k) == 0
    ensures bb & Below(k + 1) == 0
  {
  }

  lemma BelowTop(bb: bv64)
    requires !Bit(bb, 63) && bb & Below(63) == 0
    ensures bb == 0
  {
  }

  /** The lowest one bit at or above `k`, found by testing bits upwards. */
  function LowestFrom(bb: bv64, k: bv6): (r: bv6)
    requires bb != 0 && bb & Below(k) == 0
    ensures LowestAt(bb, r)
    decreases 63 - k as int
  {
    if Bit(bb, k) then k
    else if k == 63 then BelowTop(bb); assert false; 0
    else BelowStep(bb, k); LowestFrom(bb, k + 1)
  }

  lemma LowestXor(bb: bv64, k: bv6)
    requires LowestAt(bb, k)
    ensures bb ^ (bb - 1) == Below(k) | Mask(k)
  {
  }

  lemma LowestAnd(bb: bv64, k: bv6)
    requires LowestAt(bb, k)
    ensures bb & (bb - 1) == bb & !Mask(k)
  {
  }

  lemma LowestUnique(bb: bv64, k: bv6, k': bv6)
    requires LowestAt(bb, k) && LowestAt(bb, k')
    ensures k == k'
  {
  }

  /** Square `k` is the lowest occupied square of the bitboard `bb`. */
  predicate IsLowestBit(bb: bv64, k: nat) {
    k < 64 && LowestAt(bb, k as bv6)
  }

  /** The mask of bits `0..k`. */
  function LowMask(k: nat): bv64
    requires k < 64
  {
    Below(k as bv6) | Mask(k as bv6)
  }

  /** Reference definition of the lowest set bit: the first of the 64 bits,
      tested from bit 0 upwards, that is one. */
  function LowestBit(bb: bv64): (k: nat)
    requires bb != 0
    ensures IsLowestBit(bb, k)
  {
    var r := LowestFrom(bb, 0);
    assert ((r as nat) as bv6) == r;
    r as nat
  }

  /** A nonzero bitboard has exactly one lowest bit. */
  lemma LowestBitUnique(bb: bv64, k: nat)
    requires bb != 0 && IsLowestBit(bb, k)
    ensures k == LowestBit(bb)
  {
    var l := LowestBit(bb);
    LowestUnique(bb, k as bv6, l as bv6);
    Bv6Of(k);
    Bv6Of(l);
  }

  /** `bb ^ (bb - 1)` is the mask up to the lowest set bit, and `bb & (bb - 1)`
      clears that bit. */
  lemma LowestBitArithmetic(bb: bv64, k: nat)
    requires IsLowestBit(bb, k)
    ensures bb ^ (bb - 1) == LowMask(k)
    ensures bb & (bb - 1) == ClearBit(bb, k)
  {
    var b := k as bv6;
    LowestXor(bb, b);
    LowestAnd(bb, b);
    assert ClearBit(bb, k) == bb & !Mask(b);
  }

  /** `bitTable` inverts the folded hash on every mask `LowMask(k)`: it is a
      perfect hash of the 64 possible lowest bits. */
  lemma BitTableInvertsFold(k: nat)
    requires k < 64
    ensures BitTable[FoldIndex(LowMask(k))] == k
  {
    if k < 16 {
      BitTableQuarter0(k);
    } else if k < 32 {
      BitTableQuarter1(k);
    } else if k < 48 {
      BitTableQuarter2(k);
    } else {
      BitTableQuarter3(k);
    }
  }

  lemma BitTableQuarter0(k: nat)
    requires 0 <= k < 16
    ensures BitTable[FoldIndex(LowMask(k))] == k
  {
    if k == 0 {
      BitTablePair0();
    } else if k == 1 {
      BitTablePair0();
    } else if k == 2 {
      BitTablePair1();
    } else if k == 3 {
      BitTablePair1();
    } else if k == 4 {
      BitTablePair2();
    } else if k == 5 {
      BitTablePair2();
    } else if k == 6 {
      BitTablePair3();
    } else if k == 7 {
      BitTablePair3();
    } else if k == 8 {
      BitTablePair4();
    } else if k == 9 {
      BitTablePair4();
    } else if k == 10 {
      BitTablePair5();
    } else if k == 11 {
      BitTablePair5();
    } else if k == 12 {
      BitTablePair6();
    } else if k == 13 {
      BitTablePair6();
    } else if k == 14 {
      BitTablePair7();
    } else {
      assert k == 15;
      BitTablePair7();
    }
  }

  lemma BitTableQuarter1(k: nat)
    requires 16 <= k < 32
    ensures BitTable[FoldIndex(LowMask(k))] == k
  {
    if k == 16 {
      BitTablePair8();
    } else if k == 17 {
      BitTablePair8();
    } else if k == 18 {
      BitTablePair9();
    } else if k == 19 {
      BitTablePair9();
    } else if k == 20 {
      BitTablePair10();
    } else if k == 21 {
      BitTablePair10();
    } else if k == 22 {
      BitTablePair11();
    } else if k == 23 {
      BitTablePair11();
    } else if k == 24 {
      BitTablePair12();
    } else if k == 25 {
      BitTablePair12();
    } else if k == 26 {
      BitTablePair13();
    } else if k == 27 {
      BitTablePair13();
    } else if k == 28 {
      BitTablePair14();
    } else if k == 29 {
      BitTablePair14();
    } else if k == 30 {
      BitTablePair15();
    } else {
      assert k == 31;
      BitTablePair15();
    }
  }

  lemma BitTableQuarter2(k: nat)
    requires 32 <= k < 48
    ensures BitTable[FoldIndex(LowMask(k))] == k
  {
    if k == 32 {
      BitTablePair16();
    } else if k == 33 {
      BitTablePair16();
    } else if k == 34 {
      BitTablePair17();
    } else if k == 35 {
      BitTablePair17();
    } else if k == 36 {
      BitTablePair18();
    } else if k == 37 {
      BitTablePair18();
    } else if k == 38 {
      BitTablePair19();
    } else if k == 39 {
      BitTablePair19();
    } else if k == 40 {
      BitTablePair20();
    } else if k == 41 {
      BitTablePair20();
    } else if k == 42 {
      BitTablePair21();
    } else if k == 43 {
      BitTablePair21();
    } else if k == 44 {
      BitTablePair22();
    } else if k == 45 {
      BitTablePair22();
    } else if k == 46 {
      BitTablePair23();
    } else {
      assert k == 47;
      BitTablePair23();
    }
  }

  lemma BitTableQuarter3(k: nat)
    requires 48 <= k < 64
    ensures BitTable[FoldIndex(LowMask(k))] == k
  {
    if k == 48 {
      BitTablePair24();
    } else if k == 49 {
      BitTablePair24();
    } else if k == 50 {
      BitTablePair25();
    } else if k == 51 {
      BitTablePair25();
    } else if k == 52 {
      BitTablePair26();
    } else if k == 53 {
      BitTablePair26();
    } else if k == 54 {
      BitTablePair27();
    } else if k == 55 {
      BitTablePair27();
    } else if k == 56 {
      BitTablePair28();
    } else if k == 57 {
      BitTablePair28();
    } else if k == 58 {
      BitTablePair29();
    } else if k == 59 {
      BitTablePair29();
    } else if k == 60 {
      BitTablePair30();
    } else if k == 61 {
      BitTablePair30();
    } else if k == 62 {
      BitTablePair31();
    } else {
      assert k == 63;
      BitTablePair31();
    }
  }

  lemma BitTablePair0()
    ensures BitTable[FoldIndex(LowMask(0))] == 0 && BitTable[FoldIndex(LowMask(1))] == 1
  {
    assert LowMask(0) == 0x1;
    assert FoldIndex(0x1) == 30;
    assert BitTable[30] == 0;
    assert LowMask(1) == 0x3;
    assert FoldIndex(0x3) == 26;
    assert BitTable[26] == 1;
  }

  lemma BitTablePair1()
    ensures BitTable[FoldIndex(LowMask(2))] == 2 && BitTable[FoldIndex(LowMask(3))] == 3
  {
    assert LowMask(2) == 0x7;
    assert FoldIndex(0x7) == 18;
    assert BitTable[18] == 2;
    assert LowMask(3) == 0xF;
    assert FoldIndex(0xF) == 2;
    assert BitTable[2] == 3;
  }

  lemma BitTablePair2()
    ensures BitTable[FoldIndex(LowMask(4))] == 4 && BitTable[FoldIndex(LowMask(5))] == 5
  {
    assert LowMask(4) == 0x1F;
    assert FoldIndex(0x1F) == 35;
    assert BitTable[35] == 4;
    assert LowMask(5) == 0x3F;
    assert FoldIndex(0x3F) == 37;
    assert BitTable[37] == 5;
  }

  lemma BitTablePair3()
    ensures BitTable[FoldIndex(LowMask(6))] == 6 && BitTable[FoldIndex(LowMask(7))] == 7
  {
    assert LowMask(6) == 0x7F;
    assert FoldIndex(0x7F) == 41;
    assert BitTable[41] == 6;
    assert LowMask(7) == 0xFF;
    assert FoldIndex(0xFF) == 48;
    assert BitTable[48] == 7;
  }

  lemma BitTablePair4()
    ensures BitTable[FoldIndex(LowMask(8))] == 8 && BitTable[FoldIndex(LowMask(9))] == 9
  {
    assert LowMask(8) == 0x1FF;
    assert FoldIndex(0x1FF) == 63;
    assert BitTable[63] == 8;
    assert LowMask(9) == 0x3FF;
    assert FoldIndex(0x3FF) == 28;
    assert BitTable[28] == 9;
  }

  lemma BitTablePair5()
    ensures BitTable[FoldIndex(LowMask(10))] == 10 && BitTable[FoldIndex(LowMask(11))] == 11
  {
    assert LowMask(10) == 0x7FF;
    assert FoldIndex(0x7FF) == 23;
    assert BitTable[23] == 10;
    assert LowMask(11) == 0xFFF;
    assert FoldIndex(0xFFF) == 12;
    assert BitTable[12] == 11;
  }

  lemma BitTablePair6()
    ensures BitTable[FoldIndex(LowMask(12))] == 12 && BitTable[FoldIndex(LowMask(13))] == 13
  {
    assert LowMask(12) == 0x1FFF;
    assert FoldIndex(0x1FFF) == 54;
    assert BitTable[54] == 12;
    assert LowMask(13) == 0x3FFF;
    assert FoldIndex(0x3FFF) == 11;
    assert BitTable[11] == 13;
  }

  lemma BitTablePair7()
    ensures BitTable[FoldIndex(LowMask(14))] == 14 && BitTable[FoldIndex(LowMask(15))] == 15
  {
    assert LowMask(14) == 0x7FFF;
    assert FoldIndex(0x7FFF) == 53;
    assert BitTable[53] == 14;
    assert LowMask(15) == 0xFFFF;
    assert FoldIndex(0xFFFF) == 8;
    assert BitTable[8] == 15;
  }

  lemma BitTablePair8()
    ensures BitTable[FoldIndex(LowMask(16))] == 16 && BitTable[FoldIndex(LowMask(17))] == 17
  {
    assert LowMask(16) == 0x1_FFFF;
    assert FoldIndex(0x1_FFFF) == 47;
    assert BitTable[47] == 16;
    assert LowMask(17) == 0x3_FFFF;
    assert FoldIndex(0x3_FFFF) == 61;
    assert BitTable[61] == 17;
  }

  lemma BitTablePair9()
    ensures BitTable[FoldIndex(LowMask(18))] == 18 && BitTable[FoldIndex(LowMask(19))] == 19
  {
    assert LowMask(18) == 0x7_FFFF;
    assert FoldIndex(0x7_FFFF) == 24;
    assert BitTable[24] == 18;
    assert LowMask(19) == 0xF_FFFF;
    assert FoldIndex(0xF_FFFF) == 14;
    assert BitTable[14] == 19;
  }

  lemma BitTablePair10()
    ensures BitTable[FoldIndex(LowMask(20))] == 20 && BitTable[FoldIndex(LowMask(21))] == 21
  {
    assert LowMask(20) == 0x1F_FFFF;
    assert FoldIndex(0x1F_FFFF) == 59;
    assert BitTable[59] == 20;
    assert LowMask(21) == 0x3F_FFFF;
    assert FoldIndex(0x3F_FFFF) == 20;
    assert BitTable[20] == 21;
  }

  lemma BitTablePair11()
    ensures BitTable[FoldIndex(LowMask(22))] == 22 && BitTable[FoldIndex(LowMask(23))] == 23
  {
    assert LowMask(22) == 0x7F_FFFF;
    assert FoldIndex(0x7F_FFFF) == 6;
    assert BitTable[6] == 22;
    assert LowMask(23) == 0xFF_FFFF;
    assert FoldIndex(0xFF_FFFF) == 42;
    assert BitTable[42] == 23;
  }

  lemma BitTablePair12()
    ensures BitTable[FoldIndex(LowMask(24))] == 24 && BitTable[FoldIndex(LowMask(25))] == 25
  {
    assert LowMask(24) == 0x1FF_FFFF;
    assert FoldIndex(0x1FF_FFFF) == 51;
    assert BitTable[51] == 24;
    assert LowMask(25) == 0x3FF_FFFF;
    assert FoldIndex(0x3FF_FFFF) == 4;
    assert BitTable[4] == 25;
  }

  lemma BitTablePair13()
    ensures BitTable[FoldIndex(LowMask(26))] == 26 && BitTable[FoldIndex(LowMask(27))] == 27
  {
    assert LowMask(26) == 0x7FF_FFFF;
    assert FoldIndex(0x7FF_FFFF) == 39;
    assert BitTable[39] == 26;
    assert LowMask(27) == 0xFFF_FFFF;
    assert FoldIndex(0xFFF_FFFF) == 45;
    assert BitTable[45] == 27;
  }

  lemma BitTablePair14()
    ensures BitTable[FoldIndex(LowMask(28))] == 28 && BitTable[FoldIndex(LowMask(29))] == 29
  {
    assert LowMask(28) == 0x1FFF_FFFF;
    assert FoldIndex(0x1FFF_FFFF) == 57;
    assert BitTable[57] == 28;
    assert LowMask(29) == 0x3FFF_FFFF;
    assert FoldIndex(0x3FFF_FFFF) == 17;
    assert BitTable[17] == 29;
  }

  lemma BitTablePair15()
    ensures BitTable[FoldIndex(LowMask(30))] == 30 && BitTable[FoldIndex(LowMask(31))] == 31
  {
    assert LowMask(30) == 0x7FFF_FFFF;
    assert FoldIndex(0x7FFF_FFFF) == 1;
    assert BitTable[1] == 30;
    assert LowMask(31) == 0xFFFF_FFFF;
    assert FoldIndex(0xFFFF_FFFF) == 33;
    assert BitTable[33] == 31;
  }

  lemma BitTablePair16()
    ensures BitTable[FoldIndex(LowMask(32))] == 32 && BitTable[FoldIndex(LowMask(33))] == 33
  {
    assert LowMask(32) == 0x1_FFFF_FFFF;
    assert FoldIndex(0x1_FFFF_FFFF) == 3;
    assert BitTable[3] == 32;
    assert LowMask(33) == 0x3_FFFF_FFFF;
    assert FoldIndex(0x3_FFFF_FFFF) == 7;
    assert BitTable[7] == 33;
  }

  lemma BitTablePair17()
    ensures BitTable[FoldIndex(LowMask(34))] == 34 && BitTable[FoldIndex(LowMask(35))] == 35
  {
    assert LowMask(34) == 0x7_FFFF_FFFF;
    assert FoldIndex(0x7_FFFF_FFFF) == 15;
    assert BitTable[15] == 34;
    assert LowMask(35) == 0xF_FFFF_FFFF;
    assert FoldIndex(0xF_FFFF_FFFF) == 31;
    assert BitTable[31] == 35;
  }

  lemma BitTablePair18()
    ensures BitTable[FoldIndex(LowMask(36))] == 36 && BitTable[FoldIndex(LowMask(37))] == 37
  {
    assert LowMask(36) == 0x1F_FFFF_FFFF;
    assert FoldIndex(0x1F_FFFF_FFFF) == 62;
    assert BitTable[62] == 36;
    assert LowMask(37) == 0x3F_FFFF_FFFF;
    assert FoldIndex(0x3F_FFFF_FFFF) == 60;
    assert BitTable[60] == 37;
  }

  lemma BitTablePair19()
    ensures BitTable[FoldIndex(LowMask(38))] == 38 && BitTable[FoldIndex(LowMask(39))] == 39
  {
    assert LowMask(38) == 0x7F_FFFF_FFFF;
    assert FoldIndex(0x7F_FFFF_FFFF) == 56;
    assert BitTable[56] == 38;
    assert LowMask(39) == 0xFF_FFFF_FFFF;
    assert FoldIndex(0xFF_FFFF_FFFF) == 49;
    assert BitTable[49] == 39;
  }

  lemma BitTablePair20()
    ensures BitTable[FoldIndex(LowMask(40))] == 40 && BitTable[FoldIndex(LowMask(41))] == 41
  {
    assert LowMask(40) == 0x1FF_FFFF_FFFF;
    assert FoldIndex(0x1FF_FFFF_FFFF) == 34;
    assert BitTable[34] == 40;
    assert LowMask(41) == 0x3FF_FFFF_FFFF;
    assert FoldIndex(0x3FF_FFFF_FFFF) == 5;
    assert BitTable[5] == 41;
  }

  lemma BitTablePair21()
    ensures BitTable[FoldIndex(LowMask(42))] == 42 && BitTable[FoldIndex(LowMask(43))] == 43
  {
    assert LowMask(42) == 0x7FF_FFFF_FFFF;
    assert FoldIndex(0x7FF_FFFF_FFFF) == 10;
    assert BitTable[10] == 42;
    assert LowMask(43) == 0xFFF_FFFF_FFFF;
    assert FoldIndex(0xFFF_FFFF_FFFF) == 21;
    assert BitTable[21] == 43;
  }

  lemma BitTablePair22()
    ensures BitTable[FoldIndex(LowMask(44))] == 44 && BitTable[FoldIndex(LowMask(45))] == 45
  {
    assert LowMask(44) == 0x1FFF_FFFF_FFFF;
    assert FoldIndex(0x1FFF_FFFF_FFFF) == 43;
    assert BitTable[43] == 44;
    assert LowMask(45) == 0x3FFF_FFFF_FFFF;
    assert FoldIndex(0x3FFF_FFFF_FFFF) == 22;
    assert BitTable[22] == 45;
  }

  lemma BitTablePair23()
    ensures BitTable[FoldIndex(LowMask(46))] == 46 && BitTable[FoldIndex(LowMask(47))] == 47
  {
    assert LowMask(46) == 0x7FFF_FFFF_FFFF;
    assert FoldIndex(0x7FFF_FFFF_FFFF) == 44;
    assert BitTable[44] == 46;
    assert LowMask(47) == 0xFFFF_FFFF_FFFF;
    assert FoldIndex(0xFFFF_FFFF_FFFF) == 25;
    assert BitTable[25] == 47;
  }

  lemma BitTablePair24()
    ensures BitTable[FoldIndex(LowMask(48))] == 48 && BitTable[FoldIndex(LowMask(49))] == 49
  {
    assert LowMask(48) == 0x1_FFFF_FFFF_FFFF;
    assert FoldIndex(0x1_FFFF_FFFF_FFFF) == 50;
    assert BitTable[50] == 48;
    assert LowMask(49) == 0x3_FFFF_FFFF_FFFF;
    assert FoldIndex(0x3_FFFF_FFFF_FFFF) == 36;
    assert BitTable[36] == 49;
  }

  lemma BitTablePair25()
    ensures BitTable[FoldIndex(LowMask(50))] == 50 && BitTable[FoldIndex(LowMask(51))] == 51
  {
    assert LowMask(50) == 0x7_FFFF_FFFF_FFFF;
    assert FoldIndex(0x7_FFFF_FFFF_FFFF) == 9;
    assert BitTable[9] == 50;
    assert LowMask(51) == 0xF_FFFF_FFFF_FFFF;
    assert FoldIndex(0xF_FFFF_FFFF_FFFF) == 19;
    assert BitTable[19] == 51;
  }

  lemma BitTablePair26()
    ensures BitTable[FoldIndex(LowMask(52))] == 52 && BitTable[FoldIndex(LowMask(53))] == 53
  {
    assert LowMask(52) == 0x1F_FFFF_FFFF_FFFF;
    assert FoldIndex(0x1F_FFFF_FFFF_FFFF) == 38;
    assert BitTable[38] == 52;
    assert LowMask(53) == 0x3F_FFFF_FFFF_FFFF;
    assert FoldIndex(0x3F_FFFF_FFFF_FFFF) == 13;
    assert BitTable[13] == 53;
  }

  lemma BitTablePair27()
    ensures BitTable[FoldIndex(LowMask(54))] == 54 && BitTable[FoldIndex(LowMask(55))] == 55
  {
    assert LowMask(54) == 0x7F_FFFF_FFFF_FFFF;
    assert FoldIndex(0x7F_FFFF_FFFF_FFFF) == 27;
    assert BitTable[27] == 54;
    assert LowMask(55) == 0xFF_FFFF_FFFF_FFFF;
    assert FoldIndex(0xFF_FFFF_FFFF_FFFF) == 55;
    assert BitTable[55] == 55;
  }

  lemma BitTablePair28()
    ensures BitTable[FoldIndex(LowMask(56))] == 56 && BitTable[FoldIndex(LowMask(57))] == 57
  {
    assert LowMask(56) == 0x1FF_FFFF_FFFF_FFFF;
    assert FoldIndex(0x1FF_FFFF_FFFF_FFFF) == 46;
    assert BitTable[46] == 56;
    assert LowMask(57) == 0x3FF_FFFF_FFFF_FFFF;
    assert FoldIndex(0x3FF_FFFF_FFFF_FFFF) == 29;
    assert BitTable[29] == 57;
  }

  lemma BitTablePair29()
    ensures BitTable[FoldIndex(LowMask(58))] == 58 && BitTable[FoldIndex(LowMask(59))] == 59
  {
    assert LowMask(58) == 0x7FF_FFFF_FFFF_FFFF;
    assert FoldIndex(0x7FF_FFFF_FFFF_FFFF) == 58;
    assert BitTable[58] == 58;
    assert LowMask(59) == 0xFFF_FFFF_FFFF_FFFF;
    assert FoldIndex(0xFFF_FFFF_FFFF_FFFF) == 52;
    assert BitTable[52] == 59;
  }

  lemma BitTablePair30()
    ensures BitTable[FoldIndex(LowMask(60))] == 60 && BitTable[FoldIndex(LowMask(61))] == 61
  {
    assert LowMask(60) == 0x1FFF_FFFF_FFFF_FFFF;
    assert FoldIndex(0x1FFF_FFFF_FFFF_FFFF) == 40;
    assert BitTable[40] == 60;
    assert LowMask(61) == 0x3FFF_FFFF_FFFF_FFFF;
    assert FoldIndex(0x3FFF_FFFF_FFFF_FFFF) == 16;
    assert BitTable[16] == 61;
  }

  lemma BitTablePair31()
    ensures BitTable[FoldIndex(LowMask(62))] == 62 && BitTable[FoldIndex(LowMask(63))] == 63
  {
    assert LowMask(62) == 0x7FFF_FFFF_FFFF_FFFF;
    assert FoldIndex(0x7FFF_FFFF_FFFF_FFFF) == 32;
    assert BitTable[32] == 62;
    assert LowMask(63) == 0xFFFF_FFFF_FFFF_FFFF;
    assert FoldIndex(0xFFFF_FFFF_FFFF_FFFF) == 0;
    assert BitTable[0] == 63;
  }

  /** `popBit`: returns the index of the lowest set bit and the bitboard with
      that bit cleared. On an empty bitboard it returns 63 and leaves it empty. */
  function PopBit(bb: bv64): (res: (nat, bv64))
    ensures bb == 0 ==> res == (63, 0)
    ensures bb != 0 ==> IsLowestBit(bb, res.0) && res.1 == ClearBit(bb, res.0)
  {
    var index := FoldIndex(bb ^ (bb - 1));
    if bb == 0 then
      assert index == 0;
      (BitTable[index], bb & (bb - 1))
    else
      var k := LowestBit(bb);
      LowestBitArithmetic(bb, k);
      BitTableInvertsFold(k);
      (BitTable[index], bb & (bb - 1))
  }

  // ---------------------------------------------------------------------
  // Bit extensionality
  // ---------------------------------------------------------------------

  /** Two bitboards with the same bits are the same word. */
  lemma BitsEqual(a: bv64, b: bv64)
    requires forall j: nat {:trigger IsSet(a, j)} :: j < 64 ==> IsSet(a, j) == IsSet(b, j)
    ensures a == b
  {
    SameByte0(a, b);
    SameByte1(a, b);
    SameByte2(a, b);
    SameByte3(a, b);
    SameByte4(a, b);
    SameByte5(a, b);
    SameByte6(a, b);
    SameByte7(a, b);
  }

  /** One byte at a time: eight equal bits give equal masked bytes. */
  lemma SameByte0(a: bv64, b: bv64)
    requires forall j: nat {:trigger IsSet(a, j)} :: 0 <= j < 8 ==> IsSet(a, j) == IsSet(b, j)
    ensures a & 0xFF == b & 0xFF
  {
    assert IsSet(a, 0) == IsSet(b, 0) && IsSet(a, 1) == IsSet(b, 1);
    assert IsSet(a, 2) == IsSet(b, 2) && IsSet(a, 3) == IsSet(b, 3);
    assert IsSet(a, 4) == IsSet(b, 4) && IsSet(a, 5) == IsSet(b, 5);
    assert IsSet(a, 6) == IsSet(b, 6) && IsSet(a, 7) == IsSet(b, 7);
  }

  lemma SameByte1(a: bv64, b: bv64)
    requires forall j: nat {:trigger IsSet(a, j)} :: 8 <= j < 16 ==> IsSet(a, j) == IsSet(b, j)
    ensures a & 0xFF00 == b & 0xFF00
  {
    assert IsSet(a, 8) == IsSet(b, 8) && IsSet(a, 9) == IsSet(b, 9);
    assert IsSet(a, 10) == IsSet(b, 10) && IsSet(a, 11) == IsSet(b, 11);
    assert IsSet(a, 12) == IsSet(b, 12) && IsSet(a, 13) == IsSet(b, 13);
    assert IsSet(a, 14) == IsSet(b, 14) && IsSet(a, 15) == IsSet(b, 15);
  }

  lemma SameByte2(a: bv64, b: bv64)
    requires forall j: nat {:trigger IsSet(a, j)} :: 16 <= j < 24 ==> IsSet(a, j) == IsSet(b, j)
    ensures a & 0xFF_0000 == b & 0xFF_0000
  {
    assert IsSet(a, 16) == IsSet(b, 16) && IsSet(a, 17) == IsSet(b, 17);
    assert IsSet(a, 18) == IsSet(b, 18) && IsSet(a, 19) == IsSet(b, 19);
    assert IsSet(a, 20) == IsSet(b, 20) && IsSet(a, 21) == IsSet(b, 21);
    assert IsSet(a, 22) == IsSet(b, 22) && IsSet(a, 23) == IsSet(b, 23);
  }

  lemma SameByte3(a: bv64, b: bv64)
    requires forall j: nat {:trigger IsSet(a, j)} :: 24 <= j < 32 ==> IsSet(a, j) == IsSet(b, j)
    ensures a & 0xFF00_0000 == b & 0xFF00_0000
  {
    assert IsSet(a, 24) == IsSet(b, 24) && IsSet(a, 25) == IsSet(b, 25);
    assert IsSet(a, 26) == IsSet(b, 26) && IsSet(a, 27) == IsSet(b, 27);
    assert IsSet(a, 28) == IsSet(b, 28) && IsSet(a, 29) == IsSet(b, 29);
    assert IsSet(a, 30) == IsSet(b, 30) && IsSet(a, 31) == IsSet(b, 31);
  }

  lemma SameByte4(a: bv64, b: bv64)
    requires forall j: nat {:trigger IsSet(a, j)} :: 32 <= j < 40 ==> IsSet(a, j) == IsSet(b, j)
    ensures a & 0xFF_0000_0000 == b & 0xFF_0000_0000
  {
    assert IsSet(a, 32) == IsSet(b, 32) && IsSet(a, 33) == IsSet(b, 33);
    assert IsSet(a, 34) == IsSet(b, 34) && IsSet(a, 35) == IsSet(b, 35);
    assert IsSet(a, 36) == IsSet(b, 36) && IsSet(a, 37) == IsSet(b, 37);
    assert IsSet(a, 38) == IsSet(b, 38) && IsSet(a, 39) == IsSet(b, 39);
  }

  lemma SameByte5(a: bv64, b: bv64)
    requires forall j: nat {:trigger IsSet(a, j)} :: 40 <= j < 48 ==> IsSet(a, j) == IsSet(b, j)
    ensures a & 0xFF00_0000_0000 == b & 0xFF00_0000_0000
  {
    assert IsSet(a, 40) == IsSet(b, 40) && IsSet(a, 41) == IsSet(b, 41);
    assert IsSet(a, 42) == IsSet(b, 42) && IsSet(a, 43) == IsSet(b, 43);
    assert IsSet(a, 44) == IsSet(b, 44) && IsSet(a, 45) == IsSet(b, 45);
    assert IsSet(a, 46) == IsSet(b, 46) && IsSet(a, 47) == IsSet(b, 47);
  }

  lemma SameByte6(a: bv64, b: bv64)
    requires forall j: nat {:trigger IsSet(a, j)} :: 48 <= j < 56 ==> IsSet(a, j) == IsSet(b, j)
    ensures a & 0xFF_0000_0000_0000 == b & 0xFF_0000_0000_0000
  {
    assert IsSet(a, 48) == IsSet(b, 48) && IsSet(a, 49) == IsSet(b, 49);
    assert IsSet(a, 50) == IsSet(b, 50) && IsSet(a, 51) == IsSet(b, 51);
    assert IsSet(a, 52) == IsSet(b, 52) && IsSet(a, 53) == IsSet(b, 53);
    assert IsSet(a, 54) == IsSet(b, 54) && IsSet(a, 55) == IsSet(b, 55);
  }

  lemma SameByte7(a: bv64, b: bv64)
    requires forall j: nat {:trigger IsSet(a, j)} :: 56 <= j < 64 ==> IsSet(a, j) == IsSet(b, j)
    ensures a & 0xFF00_0000_0000_0000 == b & 0xFF00_0000_0000_0000
  {
    assert IsSet(a, 56) == IsSet(b, 56) && IsSet(a, 57) == IsSet(b, 57);
    assert IsSet(a, 58) == IsSet(b, 58) && IsSet(a, 59) == IsSet(b, 59);
    assert IsSet(a, 60) == IsSet(b, 60) && IsSet(a, 61) == IsSet(b, 61);
    assert IsSet(a, 62) == IsSet(b, 62) && IsSet(a, 63) == IsSet(b, 63);
  }
}
