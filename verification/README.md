# ChessEngine core in Dafny

This project models the position and move-making core of R-Kanakov/ChessEngine. The engine is a C++ chess program built around a 10×12 "mailbox" board: 120 cells, where the 64 playing squares sit inside a two-row, one-column frame of `OFFBOARD` cells.

The model covers five parts of the engine.

- **Geometry tables and generators.** These are `Board120`, `Board64`, `bFiles`, `bRanks`, the piece predicate tables, the direction tables, `setMask`/`clearMask` and `bitTable`. The compile-time sequence builders of `include/util.hpp` are modelled as recursive functions over `seq<nat>`. The runtime builders of `h/init.cpp`, the `h/` variants of the constants, and the older generators of `h/util.h` are modelled as well.
- **Bitboards.** The model covers `popBit`, `setBit`, `clearBit` and `countBit` on `bv64`, including the De Bruijn-style `bitTable` fold.
- **The move word.** `Move` packs from/to/captured/promoted and three flags into one 32-bit `info` word. The model covers its getters, `getDumpMove`, `MoveList::push_back` and the `Undo` record.
- **The board.** This part is `reset`, `parseFEN`, `generate` (the Zobrist hash), `update`, the consistency check `check`, `isAttacked` and the getters. It also covers `clearPiece`, `addPiece` and `movePiece`, and `makeMove` and `takeBackMove`.
- **Pawn move generation.** This is `AddWhitePawnMove`, `AddBlackPawnMove` and the pawn part of `GenerateAllMoves`. The source's generator emits only pawn moves.

The position is an immutable datatype (`Board.Position`). Every operation of the C++ class is a pure function that returns the next position. The Zobrist keys (`pieceKeys`, `castleKeys`, `sideKey`) come from `std::random_device`, and `bCastlePerm` and `pieceP` are used by src/makemove.cpp but defined in no file of this model. All of these are parameters, collected in `Board.Env`.

The central results are:

- `MakeMove.MakeMove` accepts a move exactly when the mover's king is not left attacked. A rejected move leaves the position as it was. An accepted move yields `Play`, which again passes `check` and keeps the list and frame invariants. The proof uses the corrected masks, castle test, king value and fifty-move field listed under "## Findings" (see "## Left out").
- `MakeMove.MakeTakeBack` shows that taking a move back after making it restores the position, with piece lists restored up to order.
- `Fen.FenRoundTrip` shows that printing a valid position as FEN and parsing it back gives the same position, with the clocks zeroed.
- `Attack.IsAttackedMeans` shows that the ray and offset walk of `isAttacked` agrees with an attacker-side definition.
- `Update.UpdateConsistent` shows that `update` builds the lists and counters that `check` demands.
- `Generated.GenerateForMakeMove` shows which moves of the pawn generator `makeMove` is written for on a valid position: all of them except king captures, en-passant captures with no enemy pawn behind an empty target, and promotions into a full piece list.
- `Witness.KingsOnlyPlayable` shows that the preconditions of `MakeMove.MakeMove` can be met. Its example is the two kings alone on E1 and E8, with the white king stepping to E2.

Where the code and its documentation or tests disagree, the model follows the code. In each such case it proves the discrepancy and then uses a corrected definition for the rest of the model; see "## Findings".

## Model

| member | source | states |
|---|---|---|
| Constants.PieceTableSizes | include/board_constants.hpp:62-136 | every per-piece table has one entry for each of the 13 piece codes |
| Constants.PieceTablesAgree | include/board_constants.hpp:62-101 | big pieces are exactly the non-pawns, and each is major or minor but not both; colour is WHITE for codes 1..6 and BLACK for 7..12; knights and kings are flagged exactly; the black half of every table mirrors the white half; the corrected `pieceVal` gives each king 50000 where the written table has `INT_MAX`, and agrees with the written table on every other piece |
| Constants.DirectionsAgree | include/board_constants.hpp:104-136 | exactly the first `directionNumber[p]` of the eight direction slots are non-zero; a piece is a rook/queen slider exactly when it slides along ±10, is a bishop/queen slider exactly when it slides along ±9, and slides exactly when it is one of the two |
| Constants.PieceBQAsWrittenWrong | include/board_constants.hpp:99-101 | the `pieceBQ` table as written marks the white rook and king, neither of which moves diagonally, and misses the white bishop, which does |
| Constants.PieceValOverflow | include/board_constants.hpp:76-77 | with the king worth `INT_MAX`, adding one pawn to a king's value already exceeds `INT_MAX`; with the h/ value 50000, ten copies of a full piece set still fit in `int` |
| Constants.ConvertFRInverse | include/board_constants.hpp:183 | `convertFR` maps every file/rank pair in 0..7 to an on-board cell from which that file and rank are read back |
| Constants.OnBoardIsConvertFR | include/board_constants.hpp:183 | every on-board cell is `convertFR` of its own file and rank, so `convertFR` reaches all 64 squares |
| Constants.ConvertFR | include/board_constants.hpp:183 | no contract of its own; `Constants.ConvertFRInverse` and `Constants.OnBoardIsConvertFR` state that it is a bijection from file/rank pairs in 0..7 onto the board squares |
| Constants.GeometryTables | include/board_constants.hpp:139-174 | `Board120` holds the 0..63 square number on the board and `OFFBOARD` in the frame; `bFiles`/`bRanks` hold the file and rank on the board and `OFFBOARD` in the frame |
| Constants.GeometryAt | include/board_constants.hpp:139-174 | the same three table facts at one given cell |
| Constants.Board64Squares | include/board_constants.hpp:177-179 | `Board64[8 * rank + file]` is the 120-cell square at that file and rank |
| Constants.Board64Numbered | include/board_constants.hpp:173-179 | `Board64` lands on the board, and `Board120` maps each of its entries back to the index it came from |
| Constants.Convert64To120 | include/board_constants.hpp:186 | the converted cell is on the board and is numbered with the given square by `Board120` |
| Constants.Convert120To64 | include/board_constants.hpp:189 | an on-board cell converts to a square below 64 that `convert64To120` maps back to the cell |
| Constants.ConversionsInverse | include/board_constants.hpp:186-189 | the two conversions are mutually inverse on squares below 64 and on on-board cells |
| Constants.BFilesMarksBoard | include/board_constants.hpp:139-147 | `bFiles[sq]` is not `OFFBOARD` exactly for the on-board cells, which is what `isOnBoard` tests |
| Ranges.IsOnBoardExactly | include/valid.hpp:7-9 | `isOnBoard` holds exactly for the cells 21..98 whose last digit is 1..8 |
| Ranges.FileRankOnBoard | include/valid.hpp:15-17 | a file and rank that pass `isFileRankValid` make an in-range, on-board cell |
| Ranges.OnBoardFileRank | include/valid.hpp:7-17 | the file and rank of an on-board cell pass `isFileRankValid` and are what `bFiles` and `bRanks` hold |
| Ranges.PieceValidByColour | include/valid.hpp:19-25 | a piece code up to 12 is a real piece exactly when its colour is not BOTH, and then that colour passes `isSideValid` |
| Bitboard.MasksAsWrittenWrong | include/board_constants.hpp:162-170 | the generated `setMask` has 0 at index 0 and is correct elsewhere; the generated `clearMask` equals `setMask`, not its complement, at indices 1..62 |
| Bitboard.ClearBitAsWrittenWrong | include/board_constants.hpp:218 | with the generated `clearMask`, clearing bit 2 of 0xC keeps only bit 2 (0x4) where the intended result is 0x8 |
| Bitboard.SetBitBits | include/board_constants.hpp:220 | after `setBit(sq)` a bit is set exactly when it is `sq` or was already set |
| Bitboard.ClearBitBits | include/board_constants.hpp:218 | after `clearBit(sq)` a bit is set exactly when it is not `sq` and was set before |
| Bitboard.ClearSetBit | include/board_constants.hpp:218-220 | setting a clear bit and then clearing it gives the bitboard back |
| Bitboard.SetClearBit | include/board_constants.hpp:218-220 | clearing a set bit and then setting it gives the bitboard back |
| Bitboard.SetBit | include/board_constants.hpp:220 | no contract of its own; `setBit` with the intended masks; `Bitboard.SetBitBits`, `ClearSetBit` and `SetClearBit` state which bits it sets |
| Bitboard.ClearBit | include/board_constants.hpp:218 | no contract of its own; `clearBit` with the intended masks; `Bitboard.ClearBitBits`, `ClearSetBit` and `SetClearBit` state which bits it clears |
| Bitboard.ClearBitAsWritten | include/board_constants.hpp:218 | no contract of its own; `clearBit` with the generated `clearMask`; `Bitboard.ClearBitAsWrittenWrong` shows it clears the wrong bit |
| Bitboard.LowestBitArithmetic | include/board_constants.hpp:211-216 | for a lowest set bit `k`, `bb ^ (bb - 1)` is the mask of bits 0..k and `bb & (bb - 1)` is `bb` with bit `k` cleared |
| Bitboard.BitTableInvertsFold | include/board_constants.hpp:49-53 | `bitTable` at the folded 32-bit index of the mask for bits 0..k is `k`, for each of the 64 values of `k` |
| Bitboard.PopBit | include/board_constants.hpp:211-216 | on a non-zero bitboard, the index returned is the lowest set bit and the bitboard left has exactly that bit cleared; on 0 it returns (63, 0) |
| ConstantsH.BRanksHMirrored | h/board_constants.h:87-95 | the h/ `bRanks` holds `7 - rank` on the board and `OFFBOARD` in the frame |
| ConstantsH.BRanksHDisagree | h/board_constants.h:87-95 | the h/ `bRanks` agrees with the include/ table exactly on the frame cells, so on every playing square it is wrong |
| ConstantsH.BRanksHExample | h/board_constants.h:87-95 | A1 reads rank 8 in the h/ table and rank 1 in the include/ table |
| ConstantsH.CountBitPopBit | h/board_constants.h:146-154 | `countBit` is at most 64, is 0 exactly for the empty bitboard, and drops by one on each `popBit` |
| ConstantsH.CountBitSetBit | h/board_constants.h:154-158 | setting a clear bit raises `countBit` by one |
| ConstantsH.CountBit | h/board_constants.h:154 | no contract of its own; `countBit`; `ConstantsH.CountBitPopBit` and `ConstantsH.CountBitSetBit` state its range and how it changes |
| Init.InitBoards | h/init.cpp:12-21 | the built `Board120` numbers the on-board square at file `f` and rank `r` with `8r + f` and leaves every frame cell at `regularNC + 1` |
| Init.InitBoardsAgree | h/init.cpp:13 | on the board the built table agrees with the include/ `Board120`; in the frame it holds 65 where that table holds `OFFBOARD` |
| Init.InitBitMasks | h/init.cpp:23-28 | the built masks are the one-bit `setMask` and its complement `clearMask` |
| Init.InitBitMasksAgree | h/init.cpp:23-28 | `setMask[i]` has exactly bit `i` and `clearMask[i]` all bits but `i`; together they are disjoint and cover all 64 bits |
| Util.Sqrt | include/util.hpp:33-41 | the result `s` satisfies `s * s <= n < (s + 1) * (s + 1)` |
| Util.SqrtSearch | include/util.hpp:33-41 | the binary search between `lo` and `hi` finds that integer square root |
| Util.SqrtUnique | include/util.hpp:33-41 | only one natural number satisfies the integer square root bounds |
| Util.SqrtExample | test/meta_test.cpp:7-12 | `Sqrt<987654>` is 993 |
| Util.IsPrimeFrom | include/util.hpp:45-52 | the trial-division recursion from `i` holds exactly when no divisor lies in `[i, n)` |
| Util.IsPrime | include/util.hpp:45-52 | `is_prime<n>` holds exactly when `n > 1` and no `d` in `[2, n)` divides `n` |
| Util.IsPrimeExamples | test/meta_test.cpp:14-20 | 5 is prime and 6 is not |
| Util.FindPairFrom | include/util.hpp:76-92 | the downward divisor search returns a factor pair whose column count is the largest divisor not above the start |
| Util.FindPair | include/util.hpp:76-92 | for a composite `n`, the pair `(r, c)` has `r * c == n`, `r >= c >= 2`, and `c` is the largest divisor of `n` that is at most `Sqrt(n)` |
| Util.CompositeHasSmallFactor | include/util.hpp:45-92 | a non-prime number above 1 has a divisor between 2 and its integer square root, so `find_pair` always succeeds on the lengths `SequenceCheck` admits |
| Util.FindPairExamples | test/meta_test.cpp:42-67 | `find_pair` gives (5, 2) for 10, (5, 3) for 15 and (8, 8) for 64 |
| Util.RangeWithTwoGaps | include/util.hpp:106-120 | the sequence starts with `Start` |
| Util.RangeWithTwoGapsContents | include/util.hpp:106-120 | the sequence is strictly ascending, lies within `[Start, End]`, and holds exactly the numbers whose last digit differs from those of `Start + 8` and `Start + 9` |
| Util.RangeWithTwoGapsRows | include/util.hpp:106-120 | from a start on file A, the kept numbers form rows of eight: entry `8 * row + col` is `Start + 10 * row + col`; the length is counted row by row |
| Util.RangeWithTwoGapsExamples | test/sequence_test.cpp:13-35 | `<1, 50>` has 40 entries laid out in rows of eight, and `<1, 48>` equals `<1, 49>` |
| Util.RowOf | include/util.hpp:176-185 | the row search either finds the unique core row whose cells contain `i`, or reports that no row from `j` on contains it |
| Util.ShellCellClosedForm | include/util.hpp:167-201 | the cell value is the sequence entry at the core index for a core cell and `shellNum` for a frame cell |
| Util.SequenceInShell | include/util.hpp:151-202 | the table has `(rows + 4) * (cols + 2)` cells; each core cell holds the input element at its row-major core index and every frame cell holds `shellNum` |
| Util.ShellTableCells | include/util.hpp:167-201 | the same layout for any factorisation `rows * cols` of the input length |
| Util.SequenceInShellExample | test/sequence_test.cpp:45-59 | `[1, 2, 3, 4]` in a shell of 5 is the 6×4 table with the 2×2 core in the middle |
| Util.SequenceWithShift | include/util.hpp:224-233 | the first entry is `Start` itself and entry `i > 0` is `1 << (Start + i)` |
| Util.SequenceWithTildaShift | include/util.hpp:237-247 | the sequence has `End - Start + 1` entries: the first is the number `Start`, each middle entry `i` is the plain single bit `1 << (Start + i)`, and only the last one, when `Start < End`, is the complement `~(1 << End)` |
| Util.SimpleSequence | include/util.hpp:251-259 | entry `i` is `Start + i`, for `End - Start + 1` entries |
| Util.UniqueSequence | include/util.hpp:288-294 | `N` copies of `Num` |
| Util.UniqueSequenceExample | test/sequence_test.cpp:91-96 | `unique_sequence<1, 4>` is four ones |
| Util.Concat | include/util.hpp:264-284 | `N` back-to-back copies of the block: entry `i` is block entry `i mod |block|` |
| Util.Columns | include/util.hpp:296-310 | the blocks from `From` up to `Current`, each value repeated `N` times in ascending order |
| Util.ColumnarSequence | include/util.hpp:296-310 | entry `i` is `From + i / N`, for `(To - From + 1) * N` entries: ascending columns |
| Util.ColumnarSequenceExample | test/sequence_test.cpp:98-106 | `columnar_sequence<1, 4, 4>` is four 1s, four 2s, four 3s, four 4s |
| UtilH.ColumnsDown | h/util.h:260-274 | the h/ `generate_columns<Current>` recursion lists `Top` down to `Current`: entry `i` is `Top - i / N` |
| UtilH.ColumnarSequence | h/util.h:260-274 | the h/ columnar sequence is descending: entry `i` is `To - i / N` |
| UtilH.ColumnarReversesBlocks | h/util.h:260-274 | block `k` of the h/ sequence is block `To - From - k` of the include/ sequence |
| UtilH.ColumnarDescendingExample | h/util.h:260-274 | for `<1, 4, 4>` the h/ builder starts with 4 where the test expects 1 |
| Moves.FlagsDistinct | include/move.hpp:40-42 | `en_pas`, `pawn_start` and `castle` are distinct single bits outside the from/to/captured fields and outside the promoted field |
| Moves.MoveOfInfo | include/move.hpp:50-52 | `Move(i)` keeps `i` verbatim as the info word, with score 0 |
| Moves.NewMove | src/move.cpp:6-7 | no contract of its own; the `Move` constructor; `Moves.PackFields` and `Moves.NewMoveFields` state what each getter reads back from it |
| Moves.GetFrom | src/move.cpp:9 | no contract of its own; `getFrom`; `Moves.NewMoveFields` states it returns the constructor's `from` |
| Moves.GetTo | src/move.cpp:11 | no contract of its own; `getTo`; `Moves.NewMoveFields` states it returns the constructor's `to` |
| Moves.GetCaptured | src/move.cpp:13 | no contract of its own; `getCaptured`; `Moves.NewMoveFields` states it returns the constructor's `captured` |
| Moves.GetPromoted | src/move.cpp:15 | no contract of its own; `getPromoted`; `Moves.NewMoveFields` states it returns the constructor's `promoted` |
| Moves.GetEnPas | src/move.cpp:17 | no contract of its own; `getEnPas`; `Moves.PackFields` states it is non-zero exactly when the flag was passed |
| Moves.GetPawnStart | src/move.cpp:19 | no contract of its own; `getPawnStart`; `Moves.PackFields` states it is non-zero exactly when the flag was passed |
| Moves.GetCastleAsWritten | src/move.cpp:21 | no contract of its own; `getCastle` as written; `Moves.CastleAsWrittenReadsPromoted` and `Moves.CastleAsWrittenWrong` state what it tests |
| Moves.GetCastle | include/move.hpp:40-42 | no contract of its own; the castle test on the `castle` flag; `Moves.NewMoveFields` states it is non-zero exactly for a castle move |
| Moves.GetPawnBits | src/move.cpp:23 | no contract of its own; `getPawnBits`; `Moves.FieldGroups` states when it is zero |
| Moves.GetPromotedBits | src/move.cpp:25 | no contract of its own; `getPromotedBits`; `Moves.FieldGroups` states when it is zero |
| Moves.GetPawnBitsH | h/move.cpp:17 | no contract of its own; the h/ `getPawnBits`; `Moves.GroupGettersDisagree` states that it ignores the move |
| Moves.GetPromotedBitsH | h/move.cpp:19 | no contract of its own; the h/ `getPromotedBits`; `Moves.GroupGettersDisagree` states that it ignores the move |
| Moves.SetScore | include/move.hpp:56-60 | no contract of its own; `setScore`; `Moves.SetScoreKeepsFields` states that only the score changes |
| Moves.PackFields | src/move.cpp:6-7 | each field of the packed word reads back through its mask and shift; each flag bit is set exactly when that flag was passed; bit 0x100000 is set exactly when the promoted code is odd |
| Moves.NewMoveFields | src/move.cpp:6-21 | for in-range fields and one flag, every getter returns what the constructor was given, each flag getter is non-zero exactly for its own flag, and the score is 0 |
| Moves.CastleAsWrittenReadsPromoted | src/move.cpp:21 | the source's `getCastle` fires exactly when the promoted code is odd, whatever flag was passed |
| Moves.CastleAsWrittenWrong | src/move.cpp:21 | as written, a castle E1-G1 is not detected, and a promotion to the white queen on H8 is reported as a castle |
| Moves.FieldGroups | src/move.cpp:23-25 | `getPawnBits` is zero exactly when both the captured field and the en-passant bit are clear, and `getPromotedBits` exactly when the promoted field is |
| Moves.GroupGettersDisagree | h/move.cpp:17-19 | the h/ getters return non-zero constants for the empty move, where the src/ getters return 0 |
| Moves.SetScoreKeepsFields | include/move.hpp:56-60 | setting the score changes the score only; every field getter reads as before |
| Moves.SquareTextInverse | src/move.cpp:27-55 | the two characters printed for an on-board cell are a file letter and a rank digit that name that cell |
| Moves.DumpMoveInverse | src/move.cpp:27-55 | the move text is 4 characters without promotion and 5 with; the first four name the from and to cells; the fifth is `n`, `r` or `b` exactly for those promotions |
| Moves.DumpMoveSquares | src/move.cpp:27-55 | the length and the from/to characters of the move text as above |
| Moves.DumpMoveLetter | src/move.cpp:43-52 | the promotion letter is `n`, `r`, `b` exactly for knights, rooks and bishops of either colour |
| Moves.DumpMove | src/move.cpp:27-55 | no contract of its own; `getDumpMove`; `Moves.DumpMoveInverse`, `DumpMoveSquares` and `DumpMoveLetter` state its length and characters |
| Moves.PushBack | include/move.hpp:86-89 | `push_back` on a list below `maxMoves` appends the move at index `count` and keeps every earlier entry |
| Moves.FiftyAsWritten | include/move.hpp:102 | a counter stored in the `bool` field of `Undo` comes back as 0 or 1, and equals what was stored exactly when that was at most 1 |
| Attack.RayHitSees | src/board.cpp:297-362 | one ray of the walk reports a hit exactly when the first piece on the ray is a slider of the right kind and colour |
| Attack.StepHitAt | src/board.cpp:282-294 | the offset loops report a hit exactly when some offset holds one of the two attacking pieces |
| Attack.IsAttackedMeans | src/board.cpp:280-372 | `isAttacked(sq, side)` holds exactly when some piece of `side` attacks `sq` by pawn, knight, king or an unobstructed slider ray |
| Attack.RayLeaves | src/board.cpp:297-362 | every ray from a board square leaves the board within eight steps, so the walk ends on `OFFBOARD` |
| Attack.IsAttacked | src/board.cpp:280-372 | no contract of its own; `isAttacked`; `Attack.IsAttackedMeans` states it holds exactly when `side` attacks the square |
| Zobrist.ToggleTwice | src/makemove.cpp:128-172 | toggling the same key twice gives the hash back, which is what lets `takeBackMove` restore `posKey` |
| Zobrist.ToggleSwap | src/makemove.cpp:177-248 | toggles commute |
| Zobrist.ToggleLast | src/makemove.cpp:177-248 | a toggle done first can be moved behind three later ones |
| Board.SquaresOfContents | src/board.cpp:152-181 | the reference list of cells holding `p` is strictly ascending, holds only such cells, and misses none |
| Board.ResetConsistent | src/board.cpp:7-29 | the reset position, on the intended empty board, passes `check` and keeps the history |
| Board.NewBoardIsReset | include/board.hpp:84 | `Board()` is consistent, has no history, no side, no en-passant square and a zero hash |
| Board.Reset | src/board.cpp:7-29 | no contract of its own; `reset` on the intended empty board; `Board.ResetConsistent` and `Board.NewBoardIsReset` state what it yields |
| Board.ResetAsWritten | src/board.cpp:7-29 | no contract of its own; `reset` with the board of line 8; `Board.ResetAsWrittenInconsistent` states that it fails `check` |
| Board.Generate | src/board.cpp:106-123 | no contract of its own; `generate`; `MakeMove.GenerateDepends`, `GenerateCastle`, `GenerateEnPas`, `GenerateSide` and `Cells.KeyAfterWrite` state how it changes with each field |
| Board.Consistent | src/board.cpp:183-278 | no contract of its own; the list, pawn and counter checks of `check`; `Update.UpdateConsistent`, `Pieces.ClearPieceConsistent` and `MakeMove.PlayValid` state which operations keep it |
| Board.Valid | src/board.cpp:183-278 | no contract of its own; `check` plus the list and frame invariants (see "## Left out"); `Fen.LoadedChecks` and `MakeMove.PlayValid` state which operations keep it |
| Board.ResetBoardAsWrittenIsNumbering | src/board.cpp:8 | the board that line 8 builds is the 0..63 square numbering of `Board120`, not an empty board |
| Board.ResetAsWrittenInconsistent | src/board.cpp:8-29 | with that board, B1 holds a white pawn and H8 holds 63, and the reset position fails `check` |
| Board.PieceListSquares | include/board.hpp:95-97 | for a valid position, `getPieceListSq(p, n)` below `getPieceNum(p) <= 10` is a cell holding `p`; every cell holding `p` is listed; no cell is listed twice |
| Board.GetSide | include/board.hpp:89 | no contract of its own; a field read |
| Board.GetPiece | include/board.hpp:90 | no contract of its own; a field read |
| Board.GetEnPas | include/board.hpp:91 | no contract of its own; a field read |
| Board.GetPieceNum | include/board.hpp:92-94 | no contract of its own; a field read; `Board.PieceListSquares` states what it counts on a valid position |
| Board.GetPieceListSq | include/board.hpp:95-97 | no contract of its own; a field read; `Board.PieceListSquares` states what it returns on a valid position |
| Board.GetCastlePerm | include/board.hpp:98 | no contract of its own; a field read |
| Update.Update | src/board.cpp:152-181 | `update` changes only the list, count and material fields; the board, side, hash and history stay |
| Update.UpdateConsistent | src/board.cpp:152-181 | from a reset position, `update` yields a position that passes `check`; each piece's list is the ascending list of its cells; each king slot is the last king cell scanned |
| Update.UpdateKings | src/board.cpp:172-175 | when the board has both kings, the updated `kings` point at them |
| Lists.FindSlot | src/makemove.cpp:38-42 | the first slot of the list that holds `sq` |
| Lists.FindSlotLive | src/makemove.cpp:38-45 | a cell among the live entries is found among the live entries |
| Lists.AgreesAfterRemove | src/makemove.cpp:45 | moving the last live entry into the removed cell's slot leaves a list that agrees with the board after the cell is cleared |
| Lists.AgreesAfterAppend | src/makemove.cpp:72 | writing the new cell at index `pieceNum` keeps the list in agreement with the board after the piece is added |
| Lists.AgreesAfterRename | src/makemove.cpp:98-105 | renaming the `from` entry to `to` keeps the list in agreement with the board after the move |
| Steps.ListsAfterTake | src/makemove.cpp:11-46 | the list update of `clearPiece` keeps every piece list consistent with the board |
| Steps.ListsAfterPut | src/makemove.cpp:48-73 | the list update of `addPiece` keeps every piece list consistent with the board |
| Steps.ListsAfterRename | src/makemove.cpp:75-106 | the list update of `movePiece` keeps every piece list consistent with the board |
| Steps.PawnsAfterTake | src/makemove.cpp:33-36 | clearing a pawn's bit in its colour and in BOTH, with the count lowered, keeps the pawn bitboards matching the board |
| Steps.PawnsAfterPut | src/makemove.cpp:67-70 | setting a pawn's bit in its colour and in BOTH keeps the pawn bitboards matching the board |
| Steps.PawnsAfterShift | src/makemove.cpp:91-96 | moving a pawn's bit from `from` to `to` keeps the pawn bitboards matching the board |
| Steps.CountersTaken | src/makemove.cpp:24-32 | removing a piece lowers material and the big/major/minor counts by exactly what that piece contributed |
| Steps.CountersPut | src/makemove.cpp:58-66 | adding a piece raises them by exactly what it contributes |
| Steps.CountersAfterMove | src/makemove.cpp:75-106 | a move that leaves material and the counts untouched keeps them matching the board |
| Steps.ListsAddBack | src/makemove.cpp:11-73 | `clearPiece` after `addPiece` brings the counts back and leaves only the stale slot just past the live entries |
| Steps.ListsMoveBack | src/makemove.cpp:75-106 | moving a piece there and back gives the piece lists back exactly |
| Cells.CountersAfterWrite | src/makemove.cpp:24-32 | counters that shift by the old and new cell contents match the board after a single-cell write |
| Cells.PawnBitsAfterWrite | src/makemove.cpp:33-36 | a bitboard changed only at the written cell, and set there exactly for the pawn codes, matches the written board |
| Cells.KeyAfterWrite | src/board.cpp:106-123 | after a single-cell write, the from-scratch hash is the old hash with the old cell key and the new cell key toggled |
| Pieces.CanClearWhenConsistent | src/makemove.cpp:38-45 | on a consistent position every real piece can be cleared: its list holds its cell |
| Pieces.ClearPieceConsistent | src/makemove.cpp:11-46 | `clearPiece` empties exactly that cell, keeps the position consistent, and keeps `posKey` equal to the from-scratch hash |
| Pieces.AddPieceConsistent | src/makemove.cpp:48-73 | `addPiece` onto an empty cell with list room writes exactly that cell, keeps the position consistent, and keeps the hash in step |
| Pieces.CanMoveWhenConsistent | src/makemove.cpp:98-103 | on a consistent position every real piece can be moved |
| Pieces.MovePieceConsistent | src/makemove.cpp:75-106 | `movePiece` to an empty cell moves exactly that piece, keeps the position consistent, and keeps the hash in step |
| Pieces.ClearPiece | src/makemove.cpp:11-46 | no contract of its own; `clearPiece`; `Pieces.ClearPieceConsistent` states its effect and `Pieces.AddThenClear` pairs it with `addPiece` |
| Pieces.AddPiece | src/makemove.cpp:48-73 | no contract of its own; `addPiece`; `Pieces.AddPieceConsistent` states its effect |
| Pieces.MovePiece | src/makemove.cpp:75-106 | no contract of its own; `movePiece`; `Pieces.MovePieceConsistent` and `Pieces.MoveKey` state its effect and `Pieces.MoveThereAndBack` its inverse |
| Pieces.MoveKey | src/makemove.cpp:85-89 | the from-scratch hash after a move is the old one with the piece's key at `from` and at `to` toggled |
| Pieces.AddThenClear | src/makemove.cpp:11-73 | `clearPiece` after `addPiece` gives the position back, except for one stale list slot past the live entries |
| Pieces.MoveThereAndBack | src/makemove.cpp:75-106 | moving a piece to an empty cell and back gives the position back exactly |
| MoveBoard.PartsOfNewMove | src/move.cpp:6-21 | the decoded parts of a constructed move are its arguments, with each flag read as a boolean |
| MoveBoard.SkippedRank | src/makemove.cpp:227-233 | the square skipped by a double push lies on rank 3 for white and rank 6 for black |
| MoveBoard.PlayBoardCells | src/makemove.cpp:192-242 | cell by cell, the board after a move holds the moved or promoted piece on `to`, EMPTY on `from`, the rook moved for a castle, the victim removed for en passant, and every other cell unchanged |
| MoveBoard.UndoBoardCells | src/makemove.cpp:143-172 | cell by cell, the take-back board puts the piece (or, after a promotion, a pawn of its colour) on `from` and the captured piece on `to`, undoes the castle rook and the en-passant victim, and leaves every other cell unchanged |
| MoveBoard.UndoPlayBoard | src/makemove.cpp:108-258 | the take-back board of the made board is the original board |
| MoveBoard.PlayKingsOn | src/makemove.cpp:244-245 | after the move, the tracked king squares still hold the kings |
| MoveBoard.PlayUnmoveFits | src/makemove.cpp:143-172 | the board after a move meets the shape conditions that the take-back steps need |
| MoveBoard.KingsRoundTrip | src/makemove.cpp:160-161 | taking the move back restores the tracked king squares |
| Counting.PlayUndoable | src/makemove.cpp:163-172 | a fitting move on a board with list room yields a board that can be taken back, with room for each piece put back |
| Counting.CaptureRoom | src/makemove.cpp:163-166 | when a capture is taken back, the captured piece's list has room for it |
| Counting.PromotionRoom | src/makemove.cpp:168-172 | when a promotion is taken back, the pawn is of the mover's colour and its list has room |
| Counting.EnPasRoom | src/makemove.cpp:155-156 | when an en-passant capture is taken back, the opponent's pawn list has room for the victim |
| MakeMove.GenerateCastle | src/board.cpp:120 | changing only the castling rights changes the hash by toggling the old and the new castle keys |
| MakeMove.GenerateEnPas | src/board.cpp:117-118 | changing only the en-passant square changes the hash by toggling the old and the new en-passant keys |
| MakeMove.GenerateSide | src/board.cpp:114-115 | flipping only the side changes the hash by toggling `sideKey` |
| MakeMove.GenerateDepends | src/board.cpp:106-123 | the hash depends only on board, side, en-passant square and castling rights |
| MakeMove.Determined | src/board.cpp:199-276 | two consistent positions with the same board agree on counts, pawn bitboards, material and counters, and list the same cells |
| MakeMove.Rekeyed | src/makemove.cpp:128-141 | a position that differs from a hashed one only in clocks, history and king slots is still hashed |
| MakeMove.HashEnPasIsKey | src/makemove.cpp:207-208 | the en-passant toggle is the key of that square |
| MakeMove.Play | src/makemove.cpp:177-248 | the made position is hashed (its `posKey` is the from-scratch hash), has the same empty-slot count, and its board is the cell-by-cell board of `PlayBoardCells` |
| MakeMove.PlayRecords | src/makemove.cpp:190-248 | making a move appends exactly one undo record of the pre-move state, flips the side, and raises `ply` and `hisPly` by one |
| MakeMove.PlayRightsShrink | src/makemove.cpp:207-215 | castling rights never gain a bit |
| MakeMove.PlayRights | src/makemove.cpp:211-213 | the new rights are the old ones masked by `bCastlePerm` of `to` and of `from` |
| MakeMove.PlayCounters | src/makemove.cpp:217-234 | the fifty-move counter restarts after a capture or a pawn move and counts up otherwise; the en-passant square is the skipped square after a pawn double push and `NO_SQ` otherwise |
| MakeMove.PlayKings | src/makemove.cpp:244-245 | the tracked king square moves with a king move and stays otherwise |
| MakeMove.PlayValid | src/makemove.cpp:177-248 | a made move keeps the position valid, as `check` demands |
| MakeMove.Rehashed | src/makemove.cpp:128-141 | undoing the en-passant and castle toggles and redoing them with the restored values yields the from-scratch hash |
| MakeMove.Unrecord | src/makemove.cpp:116-141 | popping the record restores castling rights, en-passant square and fifty-move count from it, lowers `ply` and `hisPly`, drops exactly the last record, and keeps the hash in step |
| MakeMove.TakeBack | src/makemove.cpp:108-175 | `takeBackMove` restores the recorded scalars, flips the side back, drops one record, undoes the board cell by cell and restores the king squares, with the hash in step |
| MakeMove.PlayRetractable | src/makemove.cpp:190 | a made move can be taken back, and the record it pushed is that of the pre-move position and the move |
| MakeMove.Retracted | src/makemove.cpp:108-258 | making a move and taking it back gives the same board, scalars, history and king squares, with the hash in step |
| MakeMove.MakeTakeBack | src/makemove.cpp:108-258 | take-back after make restores the position, with each piece list restored up to the order of its entries |
| MakeMove.RestoredOf | src/board.cpp:199-276 | two consistent positions that agree on board, scalars, history, kings and hash are equal up to the order of list entries |
| MakeMove.MakeMove | src/makemove.cpp:177-258 | the move is accepted exactly when the mover's king is not attacked afterwards; an accepted move yields the made position; a rejected one leaves the position as it was; the result is valid either way |
| MoveGen.Decoded | src/move.cpp:9-21 | decoding a list decodes each move in place |
| MoveGen.DecodeNew | src/move.cpp:6-21 | decoding a constructed move gives back its fields and flags |
| MoveGen.StartRankRead | src/move.cpp:164-168 | the `bRanks` lookup of the double-push test reads the pawn's start rank |
| MoveGen.LastRankRead | src/move.cpp:93-149 | the `bRanks` lookup of the promotion test holds exactly on rank 7 for white and rank 2 for black |
| MoveGen.OnBoardRead | src/move.cpp:171-175 | `Board120[sq] != OFFBOARD` holds exactly on the board |
| MoveGen.OpponentRead | src/move.cpp:171-175 | the `pieceCol` test holds exactly for pieces of the other colour |
| MoveGen.Built | src/move.cpp:93-120 | the moves built for a list of promotion pieces decode to one move per piece, in order |
| MoveGen.PiecesFor | src/move.cpp:93-149 | the promotion pieces are real piece codes |
| MoveGen.PawnMovesTo | src/move.cpp:93-149 | the moves built for one pawn step decode to the promotion plan |
| MoveGen.AddPawnMove | src/move.cpp:93-149 | `AddWhitePawnMove`/`AddBlackPawnMove` emit four promotions in the order Q, R, B, N from the seventh (second) rank and one plain move elsewhere; captured is EMPTY unless the capture flag is set |
| MoveGen.SinglePush | src/move.cpp:164-165 | the single push decodes to the promotion plan for the cell one rank ahead |
| MoveGen.DoublePush | src/move.cpp:166-168 | the double push decodes to its plan |
| MoveGen.Pushes | src/move.cpp:164-168 | the pushes decode to the push plan |
| MoveGen.Capture | src/move.cpp:171-175 | one diagonal capture decodes to its plan |
| MoveGen.EnPassant | src/move.cpp:178-182 | one en-passant test decodes to its plan |
| MoveGen.PawnMoves | src/move.cpp:160-207 | the moves of one pawn number at most 13 and decode to its plan |
| MoveGen.PawnPlan | src/move.cpp:160-207 | no contract of its own; the moves one pawn adds, as fields; `MoveGen.PushExactly`, `DoublePushExactly`, `CaptureExactly`, `EnPasExactly`, `PlanSize` and `PlanSound` state what it holds |
| MoveGen.Sweep | src/move.cpp:160-207 | the loop over a colour's pawns appends only, at most 13 moves per pawn, and the new moves decode to the pawns' plans in turn |
| MoveGen.GenerateAllMoves | src/move.cpp:152-207 | the moves added are the plans of the mover's pawns one after another, in list order, each with promotions in the order Q, R, B, N; so a move is added exactly when it is in some pawn's plan; each is allowed by the pawn rules, and none is en passant when `enPas` is `NO_SQ` |
| MoveGen.GenerateAllMovesAsWritten | src/move.cpp:178-182 | as written, the generator adds the plans of the unguarded comparison, and a white pawn on H7 with no en-passant square gets an en-passant move to the frame cell 99 |
| MoveGen.PlanSize | src/move.cpp:160-207 | one pawn's plan has at most 13 moves |
| MoveGen.PromoteEntries | src/move.cpp:93-149 | every planned move keeps from/to/captured; it promotes exactly from the last rank before promotion, and then only to that colour's queen, rook, bishop or knight |
| MoveGen.PlanSound | src/move.cpp:160-207 | every planned move is allowed by the pawn rules |
| MoveGen.PushExactly | src/move.cpp:164-165 | a move one rank ahead is planned exactly when that cell is empty |
| MoveGen.PushPromotes | src/move.cpp:93-120 | from the last rank before promotion, the push is planned as four promotions in the order Q, R, B, N |
| MoveGen.DoublePushExactly | src/move.cpp:166-168 | a pawn-start move is planned exactly when the pawn is on its start rank and both cells ahead are empty |
| MoveGen.CaptureExactly | src/move.cpp:171-175 | a non-en-passant diagonal move is planned exactly when the target is on the board and holds an opponent piece, and it records that piece as captured |
| MoveGen.EnPasExactly | src/move.cpp:178-182 | an en-passant move is planned exactly when the diagonal cell is the en-passant square and, in the corrected generator, that square is set |
| MoveGen.PlannedMoves | src/move.cpp:160-207 | a move is in the flattened plan exactly when it is in some pawn's plan |
| MoveGen.PlannedSound | src/move.cpp:160-207 | every move in the flattened plan is allowed for the pawn it came from |
| MoveGen.BogusEnPassant | src/move.cpp:178-182 | as written, a white pawn on H7 with `enPas` equal to `NO_SQ` gets an en-passant move to cell 99, which is off the board |
| MoveGen.NoEnPassantWhenUnset | src/move.cpp:178-182 | in the corrected generator, no en-passant move is planned when `enPas` is `NO_SQ` |
| Generated.MoverPawnAt | src/move.cpp:158-160 | on a valid position every live entry of the mover's pawn list is a board square holding a pawn of the side to move |
| Generated.AllowedFits | src/move.cpp:158-182 | a move the pawn rules allow for a pawn of the side to move has what `makeMove` reads from a move: on-board squares, the mover's piece on `from`, the captured piece of the other colour on `to` or an empty `to`, no castle flag, and en-passant, promotion and double-push flags that fit the board; this holds when the move captures no king and an en-passant capture lands on an empty square with the enemy pawn behind it |
| Generated.GeneratedPlayable | src/move.cpp:158-182 | a move whose getters report a move allowed for one of the mover's pawns on a valid position is one `makeMove` is written for, when it captures no king, its en-passant capture is a real one and its promotion piece has a free list slot |
| Generated.AppendedPlayable | src/move.cpp:150-207 | when every move appended after the old list is allowed for one of the mover's pawns, each appended move that meets those three conditions is one `makeMove` is written for |
| Generated.GenerateForMakeMove | src/move.cpp:150-207 | on a valid position the generator keeps the old list, and each move it appends that captures no king, makes only real en-passant captures and promotes into a list with a free slot is one `makeMove` is written for |
| Witness.KingsBoardShape | src/board.cpp:31-104 | the board with only a white king on E1 and a black king on E8 keeps the `OFFBOARD` frame and has at most ten pieces of every kind |
| Witness.KingsOnlyValid | src/board.cpp:183-278 | loading that two-king board with white to move gives a position that passes `check`, keeps the list and frame invariants, and records the white king on E1 |
| Witness.KingStepFits | src/makemove.cpp:177-187 | the step of the white king from E1 to E2 fits the two-king board: the white king moves onto an empty square and captures and promotes nothing |
| Witness.KingsOnlyPlayable | src/makemove.cpp:177-187 | for any keys and any board object, the two-king position and the king step meet every precondition of `MakeMove.MakeMove` |
| Fen.PieceCode | src/board.cpp:36-38 | a piece letter reads as a piece code, and any other character reads as EMPTY |
| Fen.RunLength | src/board.cpp:40-42 | a digit reads as a run of at most 8 empty cells |
| Fen.SideOf | src/board.cpp:70-73 | the side letter gives a side code, BOTH if it is neither `w` nor `b` |
| Fen.Empties | src/board.cpp:55-60 | a run writes EMPTY only, at cells of that rank from the current file on, and keeps the frame |
| Fen.Walk | src/board.cpp:34-66 | the placement walk keeps the board framed, stops at the first space, and fails when there is none |
| Fen.Rights | src/board.cpp:75-91 | the castling letters stop at a space and only ever OR in rights below 16 |
| Fen.CastleField | src/board.cpp:75-91 | the castling field gives rights below 16 |
| Fen.EnPasField | src/board.cpp:93-99 | a parsed en-passant square is a cell of the 120-cell board |
| Fen.Tail | src/board.cpp:68-99 | the side, rights and en-passant square read after the placement are in range |
| Fen.Fields | src/board.cpp:31-103 | the position built from the parsed fields is well formed, blank apart from the board, and holds the parsed board |
| Fen.PlacementText | src/board.cpp:34-66 | the placement printed for a board is 71 characters, eight rows of eight cells with seven slashes |
| Fen.ReadPlacement | src/board.cpp:34-66 | walking the printed placement rebuilds the board it was printed from and stops on the space at position 71 |
| Fen.CastleGrants | src/board.cpp:75-91 | the castling letters printed for non-zero rights OR back to exactly those rights |
| Fen.CastleBack | src/board.cpp:75-91 | the castling field printed for some rights parses back to them and stops at the following space |
| Fen.EnPasBack | src/board.cpp:93-99 | the en-passant text printed for a square, or `-` for `NO_SQ`, parses back to it |
| Fen.ReadTail | src/board.cpp:68-99 | side, castling and en-passant fields printed after the placement parse back to the same values |
| Fen.ParseFenOk | src/board.cpp:31-104 | when the placement and the remaining fields parse, `parseFEN` succeeds with the position loaded from them |
| Fen.ToFenParses | src/board.cpp:31-104 | the FEN text of a printable position parses to the position loaded from its own fields |
| Fen.LoadedSame | src/board.cpp:101-103 | the loaded position keeps board, side, rights, en-passant square and history, and its hash equals the original hash |
| Fen.LoadedChecks | src/board.cpp:183-278 | the loaded position passes `check` |
| Fen.LoadedValid | src/board.cpp:31-104 | loading a valid position's own fields gives a position that passes `check` and has the same board, side, rights, en-passant square, hash, history, pawn bitboards and counters, with the clocks zeroed |
| Fen.FenRoundTrip | src/board.cpp:31-104 | a valid position is printable as FEN; parsing that text back succeeds and gives a position that passes `check` and has the same board, side, rights, en-passant square, hash, history, pawn bitboards and counters, with the clocks zeroed |
| Fen.ParseFen | src/board.cpp:31-104 | no contract of its own; `parseFEN`; `Fen.ParseFenOk` states the result when the fields parse and `Fen.FenRoundTrip` pairs it with printing |
| Fen.FromFen | include/board.hpp:85 | no contract of its own; `Board(fen)`, a fresh object and then `parseFEN`; stated through `Fen.ParseFen` |

## Left out

- Zobrist key generation (src/init.cpp:9-21, h/init.cpp:30-43) draws random numbers. The keys are uninterpreted parameters of `Board.Env`.
- `bCastlePerm`, `pieceP`, the hash-toggle helpers, the `Undo` constructor and `kings.first`/`kings.second` are used by src/makemove.cpp but defined in no file of this model. `bCastlePerm` and `pieceP` are parameters. The toggles are modelled as XOR with the key of the cell, side, castle or en-passant square, which is what `generate` uses. An undo record is a plain datatype.
- Printing is not modelled: `Board::dump`, `MoveList::dump`, `printBitBoard`, the `std::cout` traces of `GenerateAllMoves`, and main/main.cpp. `getDumpSquare` returns a static buffer without a terminator, so the model gives only its two characters.
- The slider and stepper loops of `GenerateAllMoves` (src/move.cpp:210-282) only print. The slider loop's `while (target_piece == OFFBOARD)` never advances. The model generates pawn moves only, as the source does.
- Template machinery is not modelled: concepts, `has_typedef_type`, `fake_range`, `static_assert`, `seq_size`, `make_array_from_sequence` and instantiation depth. The generators are ordinary recursive functions.
- `zeros_sequence` (include/util.hpp:314-322) builds the same sequence as `unique_sequence`, so it has no separate member.
- The `h/util.h` versions of `range_sequence_with_two_gaps`, `is_prime`, `Sqrt`, `find_pair`, `sequence_in_shell`, the two shift builders, `concat` and `unique_sequence` compute the same values as the include/util.hpp ones. The `Util` members stand for both, and only the differing columnar builder has its own module.
- The perft driver (test/perft_test.cpp) is not modelled. The generator never produces the moves its counts need.
- h/board.h and inc/move.hpp only declare, and are not part of this model.
- Negative direction offsets are stored as `size_t` and rely on wrap-around. The model uses signed integers.
- Fen.ParseFen: the source never checks its input. A write into the `OFFBOARD` frame is defined behaviour in the source and leaves a corrupted position: a ninth file on a rank, a run of empties past file H, or an eighth `/` that moves the rank below rank 1. A write beyond the 120 cells, a read past the end of the text, a piece-list overflow in `update`, and an en-passant index outside the key table are undefined behaviour. The model returns an error for all of them, so it does not model the corrupted positions. The half-move and full-move fields are not read by the source and not modelled. Text is a sequence of characters, not bytes.
- Uninitialised piece-list slots are a parameter: `reset` keeps whatever the lists held.
- MoveGen.GenerateAllMoves: requires room for 13 moves per pawn in the 256-entry list. The source has no such check. The source also does not reset the list count, so the model appends to the list it is given.
- Generated.GenerateForMakeMove: covers only the appended moves that meet `Generated.Unchecked`. The generator also emits king captures, en-passant captures that find no enemy pawn, and promotions into a full list. `makeMove` is not written for these moves.
- MoveGen.LastRankRead and MoveGen.StartRankRead: the model states ranks through `RankOf`, and these lemmas link that to the `bRanks` reads.
- `pieceNum[EMPTY]` is bookkeeping the source never reads. The model keeps it and restores it only as a count.
- `ply` and `hisPly` are unbounded integers. The source's `int` counters would overflow only after about two billion moves.
- MakeMove.MakeMove: requires that the king squares are tracked (`KingTracked`). This holds when `kings` points at the kings, which `update` and every `makeMove` keep true. It also requires list room (`Capacity`) for the pieces the move takes back.
- MakeMove.MakeMove: requires `Board.Valid`, which is `check` plus list and frame invariants that `check` does not test: distinct live list entries, the `OFFBOARD` frame, and at most ten pieces of a kind. `update`, `makeMove` and `takeBackMove` keep these invariants. So a position that passes `check` alone, such as white pawns on A2 and B2 with the list [A2, A2], is outside the contract.
- MakeMove.MakeMove: requires that the move fits the board (`MakeMove.Playable`). The source only asserts on-board squares and a real piece on `from` (src/makemove.cpp:185-187). A capture of a king, which the generator's colour test admits, is outside the contract. `Generated.GenerateForMakeMove` names the generated moves the contract covers.
- MakeMove.MakeMove: the result relies on four corrected definitions from "## Findings". These are the `h/init.cpp` masks in place of `setMask`/`clearMask`, the castle test on bit 0x1000000 in `MoveBoard.Parts`, the king value 50000 in `pieceVal`, and a full-width `fiftyMove` in the undo record. `MakeMove.TakeBack`, `MakeMove.MakeTakeBack` and the `Pieces` consistency lemmas rely on the same definitions. As written, the proofs do not hold. Every `clearPiece` or `movePiece` of a pawn (src/makemove.cpp:33-36, 91-96) leaves `pawns[]` wrong, because `clearMask` equals `setMask`, so the `check()` at src/makemove.cpp:250 fails. A promotion to wQ on C8 reads as a castle and runs `movePiece(A8, D8)`. A king's material overflows `int`. A fifty-move count above 1 comes back as 1.
- MakeMove.TakeBack: as written, `takeBackMove` binds `last_move` to `history.back()`, pops the history, and then reads the record through that reference (src/makemove.cpp:116-118, 132-134). The read goes through an invalidated reference, which is undefined behaviour. The model reads the record before removing it, which is the evident intent.
- Fen.FenRoundTrip: requires `Board.Valid`, which is `check` plus the list and frame invariants, rather than `check` alone.
- MakeMove.MakeTakeBack: piece lists come back up to the order of their entries, not slot for slot, because `clearPiece` moves the last entry into the freed slot.
- Update.UpdateConsistent: `update` is modelled from the reset state only, which is how `parseFEN` calls it.
- `check` (src/board.cpp:183-278) indexes its material tally by colour and uses BOTH for empty cells. The model sums occupied cells only. `Board.Valid` is `check` plus the list and frame invariants that `update`, `makeMove` and `takeBackMove` keep: distinct live list entries, the `OFFBOARD` frame, and at most ten pieces of a kind.
- The test-only APIs (`stoa`, `сonsecutive_sequence`, `n_sequences`, `sequence_transform`) are not part of this model. Their expected arrays appear only as example lemmas.
- Board.Reset: line 8 of src/board.cpp builds the board from a 0..63 numbering. The model's `Reset` uses the intended empty board with an `OFFBOARD` frame, and the as-written board appears in `Board.ResetAsWrittenInconsistent`.
- The getters of include/board.hpp are plain field reads and have no contract of their own; `Board.PieceListSquares` states what `getPieceListSq` and `getPieceNum` return for a valid position.

## Findings

| source | as written | input that shows it | evidently intended | confidence | as-written member | corrected member |
|---|---|---|---|---|---|---|
| include/board_constants.hpp:162-170 | `setMask` comes from `sequence_with_shift`, whose first entry is its start index 0; `clearMask` comes from `sequence_with_tilda_shift`, which complements only the last entry | `clearBit(0xC, 2)` gives 0x4 | `setMask[i] = 1 << i` and `clearMask[i] = ~setMask[i]`, so `clearBit(0xC, 2)` is 0x8 | high, not executed | Bitboard.MasksAsWrittenWrong | Init.InitBitMasksAgree |
| src/move.cpp:21 | `getCastle` tests bit 0x100000, the low bit of the promoted field | castle E1-G1 reads as not a castle; promotion to wQ (code 5) reads as a castle | test the `castle` flag 0x1000000 | high, not executed | Moves.CastleAsWrittenWrong | Moves.NewMoveFields |
| src/move.cpp:178-182 | the en-passant comparison `sq + 11 == enPas` does not exclude `NO_SQ` (99) | a white pawn on H7 (88) with no en-passant square gets an en-passant move to 99 | only compare when `enPas != NO_SQ` | high, not executed | MoveGen.BogusEnPassant | MoveGen.NoEnPassantWhenUnset |
| src/board.cpp:8 | `reset` fills the board from a 0..63 numbering | after `reset`, B1 holds 1 (wP) and the position fails `check` | an EMPTY board inside an `OFFBOARD` frame | medium, not executed | Board.ResetAsWrittenInconsistent | Board.ResetConsistent |
| include/move.hpp:102 | `Undo::fiftyMove` is a `bool` | a fifty-move count of 5 comes back as 1 after `takeBackMove` | a counter-width field | high, not executed | Moves.FiftyAsWritten | MakeMove.MakeTakeBack |
| h/util.h:260-274 | `columnar_sequence` recurses upward and emits the highest block first | `<1, 4, 4>` starts with 4 | ascending blocks, as include/util.hpp and its test expect | high, not executed | UtilH.ColumnarDescendingExample | Util.ColumnarSequenceExample |
| include/board_constants.hpp:99-101 | `pieceBQ` marks the white rook and king | `pieceBQ[wR]` is true; `pieceBQ[wB]` is false | true for bishops and queens, as the black half has it | high, not executed | Constants.PieceBQAsWrittenWrong | Constants.DirectionsAgree |
| include/board_constants.hpp:76-77 | the king is worth `INT_MAX` | king plus one pawn of material exceeds `INT_MAX` | a finite king value, as h/board_constants.h:68-69 uses (50000) | medium, not executed | Constants.PieceValOverflow | Constants.PieceTablesAgree |
| h/board_constants.h:87-95 | `bRanks` goes through the descending h/ columnar builder | A1 reads rank 8 | A1 reads rank 1 | medium, not executed | ConstantsH.BRanksHExample | Constants.GeometryAt |
| h/init.cpp:13 | `initBoards` fills the frame with `regularNC + 1` (65) | `Board120[0]` is 65 | `OFFBOARD` (100), as include/board_constants.hpp has it | medium, not executed | Init.InitBoardsAgree | Constants.GeometryTables |
