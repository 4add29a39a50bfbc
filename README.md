# 5D chess engine and board viewer, modelled in Dafny

This project models the sequential core of a five-dimensional chess engine
(chess with multiverse time travel) and of its browser board viewer. Boards
sit on timelines `l` and turns `t`, with a colour `c` to move. The viewer
lays them out on a plane at column `v = 2t + c` and row `l`.

The engine part covers:
- turn arithmetic;
- the two revisions of the multiverse container: the integer/natural line
  bijection, board insertion with its gap and duplicate checks, and the
  present and the active lines;
- 64-bit bitboards: shifts, pawn, king and knight attacks, copy masks,
  `marked_pos` and `bb_to_string`;
- the PGN-style notation. This covers the lexer, the recursive-descent
  parser of headers, board strings, moves, comments and variations, the
  pattern matchers, the `full_move` text round trip and the move
  serialiser. The notation follows the tag pairs of section 8.1 and the SAN
  movetext of section 8.2.3 of the PGN Standard, with 5D board prefixes and
  jumps added;
- action ordering;
- timeline classification and the submit and apply rules of a game state;
- the undo/redo history and the game tree;
- the self-contained parts of the hypercuboid move search: move paths,
  axis layout, action extraction and the worklist loop;
- the bot's transposition table and integer move scoring;
- lazy memoising streams.

The viewer part covers:
- board layout: the pixel maps, the click inverse, the window filter and
  its cache, and focus cycling;
- the viewport: the animation loop, click versus drag, wheel zoom and the
  screen/world maps;
- level-of-detail selection;
- the board-row (FEN piece placement) parser;
- colour-token resolution and saturation fade;
- the page's square-selection state machine and highlight merge.

There is one module per source file or component. Code the source writes
as loops over mutable state is modelled as Dafny classes and methods with
loop invariants. Each such method is proved against a specification
function, and the properties the source promises are proved as lemmas about
those functions. Pure code becomes functions and lemmas.

Exceptions and JavaScript `throw`s become `Err` results. Collaborators
outside the core become parameters of the model: the board class, move
generation, CSS and DOM lookups, and the search's geometry.

## Model

| member | source | states |
|---|---|---|
| Turn.FromIndex | src/core/turn.h:13 | the pair `(v>>1, v&1)` has linear index `2n+c` equal to `v` |
| Turn.FromIndexOfIndex | src/core/turn.h:11-13 | splitting the linear index of a turn gives the turn back |
| Turn.NextTurn | src/core/turn.h:9-14 | `(n,false)` goes to `(n,true)`, `(n,true)` to `(n+1,false)`; the linear index grows by exactly one |
| Turn.PreviousTurn | src/core/turn.h:16-21 | `(n,true)` goes to `(n,false)`, `(n,false)` to `(n-1,true)`; the linear index drops by exactly one |
| Turn.NextPreviousInverse | src/core/turn.h:9-21 | `previous_turn` undoes `next_turn` and `next_turn` undoes `previous_turn` |
| Turn.LessIsIndexOrder | src/core/turn.h:7 | the pair order on `(n,c)` is the order of the linear indices |
| Turn.ShowTurn | src/core/turn.h:23-27 | the text is the decimal number followed by `b` for black or `w` for white |
| Turn.ShowTurnInjective | src/core/turn.h:23-27 | two turns with the same text are the same turn |
| Turn.ShowStatus | src/core/turn.h:33-51 | every match status prints as its enumerator's name |
| Turn.ShowStatusInjective | src/core/turn.h:33-51 | different statuses print differently |
| Coordinates.LToU | src/core/multiverse_base.cpp:19-25 | the row is non-negative, even exactly for non-negative lines |
| Coordinates.TcToV | src/core/multiverse_base.cpp:27-30 | the column is odd exactly for black |
| Coordinates.LToUInverse | src/core/multiverse_base.cpp:19-38 | `u_to_l(l_to_u(l)) == l` for every line |
| Coordinates.UToLInverse | src/core/multiverse_base.cpp:19-38 | `l_to_u(u_to_l(u)) == u` for every row `u >= 0`, so the map is a bijection onto the naturals |
| Coordinates.LToUInjective | src/core/multiverse_base.cpp:19-25 | different lines get different rows |
| Coordinates.TcVInverse | src/core/multiverse_base.cpp:27-43 | `v_to_tc(tc_to_v(t,c)) == (t,c)` |
| Coordinates.VTcInverse | src/core/multiverse_base.cpp:27-43 | `tc_to_v(v_to_tc(v)) == v` for every column |
| Coordinates.TcToVInjective | src/core/multiverse_base.cpp:27-30 | different turns get different columns |
| Coordinates.LToUBounded | src/core/multiverse_base.cpp:19-25 | a line between two ends around 0 gets a row no larger than one of the ends' rows, so the table sized by the ends covers it |
| CppInt.ShrLowSplit | src/core/turn.h:13 | `v>>1` and `v&1` split `v` as `2*(v>>1) + (v&1)` with the low part 0 or 1 |
| Text.NatToString | src/core/turn.h:26 | `std::to_string` of a natural: at least one digit, all digits, no leading zero |
| Text.IntToString | src/core/turn.h:26 | `std::to_string`: a leading `-` exactly for negative values |
| Text.DigitsValueOfNatToString | src/core/action.cpp:18-32 | reading the digits back gives the number |
| Text.ParseIntToString | src/core/action.cpp:18-32 | `stoi` of `to_string(n)` is `n` for every integer |
| Text.ParseNatural | src/core/action.cpp:18-32 | `stoi` reads back a printed natural |
| Text.ParseNegative | src/core/action.cpp:18-32 | `stoi` reads back a printed negative number |
| Text.IntToStringInjective | src/core/turn.h:26 | different integers print differently |
| Text.Join | src/core/state.inl:137-148 | no parts give the empty text and one part gives that part |
| Text.JoinSnoc | src/core/state.inl:137-148 | joining one more part appends the separator and the part |
| MultiverseBase.Grow | src/core/multiverse_base.cpp:138-140 | `resize` to a larger size keeps the old entries and fills the new ones with the given value |
| MultiverseBase.WidenEffect | src/core/multiverse_base.cpp:136-143 | growing the rows to reach `u` keeps every existing row and its start/end, adds empty rows with the `INT_MAX`/`INT_MIN` sentinels, and widens `[l_min, l_max]` to include `l` |
| MultiverseBase.PlaceEffect | src/core/multiverse_base.cpp:144-160 | the slot is filled exactly when it was free; then `start = min(start, v)` and `end = max(end, v)`; a refused slot changes nothing; other rows and slots are untouched |
| MultiverseBase.InsertKeepsWellFormed | src/core/multiverse_base.cpp:129-161 | an insertion, accepted or not, keeps every row's start/end bracketing its boards |
| MultiverseBase.InsertEffect | src/core/multiverse_base.cpp:129-161 | `insert_board_impl` succeeds iff the column is non-negative and the slot is free; on success the slot holds the board inside `[start, end]`; a duplicate leaves the slot as it was; the line range widens to include `l`; nothing else changes |
| MultiverseBase.AppendEffect | src/core/multiverse_base.cpp:122-127 | `append_board` pushes exactly one board onto the row, increments `timeline_end` by one, and the new board sits at the new end |
| MultiverseBase.InsertThenGetBoard | src/core/multiverse_base.cpp:105-120 | after a successful insertion `get_board` returns the board; after a refused one it returns what it returned before |
| MultiverseBase.InboundHasSlot | src/core/multiverse_base.cpp:105-120 | an `inbound` square's row and column exist, so `get_board` does not throw for it |
| MultiverseBase.InsertThenInbound | src/core/multiverse_base.cpp:239-245 | after a successful insertion every on-board square of the new board is `inbound` |
| MultiverseBase.MinEndIsMinimum | src/core/multiverse_base.cpp:70-78 | the loop's value is no larger than any line's end and equals one of them, or `INT_MAX` over an empty range |
| MultiverseBase.RowEntriesExact | src/core/multiverse_base.cpp:198-210 | the tuples listed for one row are exactly its stored boards with their `l`, `t`, `c` |
| MultiverseBase.EntriesExact | src/core/multiverse_base.cpp:194-212 | `get_boards` lists a tuple iff its board is stored at the row and column its `l`, `t`, `c` map to |
| MultiverseBase.FirstHole | src/core/multiverse_base.cpp:59-66 | the first empty column between start and end, or none when every column in between holds a board |
| MultiverseBase.GapErrorExact | src/core/multiverse_base.cpp:54-67 | the gap checks pass iff every line from `l_min` to `l_max` has a board and no missing board between its first and last |
| MultiverseBase.InsertAll | src/core/multiverse_base.cpp:50-53 | the constructor's insertions keep the table well formed |
| MultiverseBase.InsertAllStep | src/core/multiverse_base.cpp:50-53 | the insertions run in order and stop at the first one that throws |
| MultiverseBase.Multiverse.constructor | src/core/multiverse_base.cpp:45-46 | the member initialisers: an empty table with `l_min = l_max = 0` and the given board size |
| MultiverseBase.Multiverse.InsertBoardImpl | src/core/multiverse_base.cpp:129-161 | the object's new table and result are those of `Insert` on the old table; the active range is untouched |
| MultiverseBase.Multiverse.WidenRows | src/core/multiverse_base.cpp:136-143 | the rows are grown and the line range widened as `Widen` says |
| MultiverseBase.Multiverse.PlaceSlot | src/core/multiverse_base.cpp:144-160 | the slot is filled or refused as `Place` says |
| MultiverseBase.Multiverse.InsertBoard | src/core/multiverse_base.cpp:163-187 | the insertion, then a new line activates the active range's next line on its side only while that side has at most one line more than the other; on error the active range is unchanged; from a balanced range, a board on an existing or adjacent new line leaves the range equal to the balanced range of the widened lines, which is the `assert` of line 186 |
| MultiverseBase.Multiverse.FollowNewLine | src/core/multiverse_base.cpp:166-185 | the active range becomes `ActiveAfterInsert` of the old one, and the table is untouched |
| MultiverseBase.ActiveAfterInsertBalanced | src/core/multiverse_base.cpp:163-187 | the `if` chain of `insert_board` keeps the active range equal to the balanced range `l0_min - min(blacks, whites + 1) .. l0_max + min(whites, blacks + 1)` for a board on an existing line or a new line next to the range, as the `assert` of line 186 promises |
| MultiverseBase.Multiverse.UpdateActiveRange | src/core/multiverse_base.cpp:189-192 | the active range becomes the given range and the table is unchanged |
| MultiverseBase.Multiverse.AppendBoard | src/core/multiverse_base.cpp:122-127 | the table becomes `Append` of the old one, which `AppendEffect` describes |
| MultiverseBase.Multiverse.GetPresent | src/core/multiverse_base.cpp:70-78 | `get_present` is `v_to_tc` of the minimum end over the active lines |
| MultiverseBase.Multiverse.GetBoards | src/core/multiverse_base.cpp:194-212 | the list holds exactly the stored boards, row by row |
| MultiverseBase.Multiverse.CheckGaps | src/core/multiverse_base.cpp:54-67 | the constructor's gap loop reports the first gap error from `l_min` on, if any |
| MultiverseBase.FindGap | src/core/multiverse_base.cpp:54-67 | the loop over the lines finds the error `GapError` names |
| MultiverseBase.LineGap | src/core/multiverse_base.cpp:56-66 | one line: the missing-line or missing-board error, or the checks go on with the next line |
| MultiverseBase.RowHasHole | src/core/multiverse_base.cpp:59-66 | the inner loop finds a hole iff one exists between start and end |
| MultiverseBase.InsertEach | src/core/multiverse_base.cpp:50-53 | the insertion loop does what `InsertAll` says, stopping at the first error |
| MultiverseBase.Build | src/core/multiverse_base.cpp:45-68 | the constructor throws on empty input, on a failed insertion and on a gap, and succeeds exactly otherwise, holding the inserted boards |
| OldMultiverse.ActiveRangeIsBalanced | src/core/multiverse.cpp:74-96 | with the single initial line 0, `number_activated`'s scan range is the balanced range that the later `insert_board` keeps |
| OldMultiverse.ActiveRangeBalance | src/core/multiverse.cpp:74-96 | with `number_activated` as the bound, `get_present` scans every line of the side with fewer lines and at most one line more of the other side |
| OldMultiverse.IsActiveAsWrittenDisagrees | src/core/multiverse.cpp:98-103 | `is_active` as written, with lines 0..3 and the present at turn 10, calls line 3 active although the balance rule does not |
| OldMultiverse.IsActiveMeansBalanced | src/core/multiverse.cpp:74-96 | the corrected `is_active` holds iff the other side has at least as many lines, or the line is the first extra one |
| OldMultiverse.NegativeTimeCheckUnreachable | src/core/multiverse.cpp:155-162 | because `v >= timeline.size()` compares as unsigned, the negative-time `throw` is never reached; a negative column instead makes `resize` throw `length_error` or empty the row |
| OldMultiverse.BlackAtTurnMinusOneClearsRow | src/core/multiverse.cpp:155-163 | turn -1 black (`v = -1`) resizes the row to 0 and then writes before its start |
| OldMultiverse.InsertEffect | src/core/multiverse.cpp:138-166 | the corrected `insert_board` throws exactly for a negative column and otherwise stores the board, overwriting the slot, inside `[start, end]`; the line range widens to include `l` |
| OldMultiverse.GetBoard | src/core/multiverse.cpp:119-129 | `get_board` returns the stored slot when the indices are in range and `nullptr` instead of throwing when they are not |
| OldMultiverse.ColourOf | src/core/multiverse.cpp:40-53 | the colour letter is accepted iff it is one of `wWbB`, and it is black iff it is `b` or `B`; anything else throws |
| OldMultiverse.GapErrorExact | src/core/multiverse.cpp:58-71 | the gap checks pass iff every line in `[l_min, l_max]` has boards with none missing between its first and last |
| OldMultiverse.InsertAll | src/core/multiverse.cpp:30-57 | the constructor's insertions keep the table well formed, and a successful run over a non-empty list leaves a row |
| OldMultiverse.InsertRows | src/core/multiverse.cpp:138-166 | the steps of `insert_board` on the table compute `Insert` |
| OldMultiverse.Multiverse.constructor | src/core/multiverse.cpp:30-72 | the object starts as the empty table |
| OldMultiverse.Multiverse.InsertBoard | src/core/multiverse.cpp:138-166 | the new table and the error are those of `Insert` on the old table |
| OldMultiverse.Multiverse.AppendBoard | src/core/multiverse.cpp:131-136 | `append_board` pushes one board and increments `timeline_end` by exactly one |
| OldMultiverse.Multiverse.GetPresent | src/core/multiverse.cpp:87-96 | the minimum end over `[max(l_min, -na), min(l_max, na)]`, as a turn |
| OldMultiverse.Multiverse.CheckGaps | src/core/multiverse.cpp:58-71 | the gap loop reports the first gap error from `l_min` on, if any |
| OldMultiverse.FindGap | src/core/multiverse.cpp:58-71 | the loop over the lines finds the error `GapError` names |
| OldMultiverse.InsertEach | src/core/multiverse.cpp:30-57 | each block's colour is decoded and its board inserted in order, stopping at the first error |
| OldMultiverse.Build | src/core/multiverse.cpp:30-72 | the constructor succeeds exactly when every colour letter is known and there is no gap, holding the inserted boards |
| Bitboard.Pmask | src/core/bitboard.h:37-40 | `pmask(pos)` has bit `pos` set and no other bit |
| Bitboard.PmaskHas | src/core/bitboard.h:37-40 | `pmask(pos)` marks exactly the square `(pos % 8, pos / 8)` |
| Bitboard.FileRank | src/core/bitboard.h:37-40 | square `(x, y)` sits at bit `y*8 + x`, so its file and rank are read back by `% 8` and `/ 8` |
| Bitboard.NorthSquares | src/core/bitboard.h:42-45 | `shift_north` (`<< 8`) marks a square iff the square one rank below was marked |
| Bitboard.SouthSquares | src/core/bitboard.h:46-49 | `shift_south` (`>> 8`) marks a square iff the square one rank above was marked |
| Bitboard.WestSquares | src/core/bitboard.h:50-53 | `shift_west` clears the a-file before `>> 1`, so a square is marked iff its east neighbour was, and nothing wraps across a rank edge |
| Bitboard.EastSquares | src/core/bitboard.h:54-57 | `shift_east` clears the h-file before `<< 1`, so a square is marked iff its west neighbour was, and nothing wraps |
| Bitboard.NorthwestSquares | src/core/bitboard.h:58-61 | `shift_northwest` moves every mark one file west and one rank north, without wrapping |
| Bitboard.NortheastSquares | src/core/bitboard.h:62-65 | the corrected `shift_northeast` (h-file cleared) moves every mark one file east and one rank north, without wrapping |
| Bitboard.SouthwestSquares | src/core/bitboard.h:66-69 | `shift_southwest` moves every mark one file west and one rank south, without wrapping |
| Bitboard.SoutheastSquares | src/core/bitboard.h:70-73 | the corrected `shift_southeast` (h-file cleared) moves every mark one file east and one rank south, without wrapping |
| Bitboard.SameSquares | src/core/bitboard.h:34-35 | two bitboards that mark the same squares are equal |
| Bitboard.NortheastAsWrittenWraps | src/core/bitboard.h:62-65 | as written (a-file cleared), `shift_northeast` sends h2 to a4 and drops a2; the corrected shift drops h2 and sends a2 to b3 |
| Bitboard.SoutheastAsWrittenWraps | src/core/bitboard.h:70-73 | as written, `shift_southeast` sends h2 to a2 and drops a2; the corrected shift sends a2 to b1 |
| Bitboard.WhitePawnAttackAsWrittenWrong | src/core/bitboard.h:82-86 | with the written shifts a white pawn on a2 attacks nothing and one on h2 attacks g3 and a4 |
| Bitboard.WhitePawnAttackSquares | src/core/bitboard.h:82-86 | a white pawn attacks exactly the on-board squares one rank forward and one file to either side |
| Bitboard.BlackPawnAttackSquares | src/core/bitboard.h:87-91 | a black pawn attacks exactly the on-board squares one rank backward and one file to either side |
| Bitboard.KingAttackSquares | src/core/bitboard.cpp:47-59 | `king_attack_data[pos]`, the union of the eight one-step shifts, marks exactly the other squares at king distance one |
| Bitboard.KnightLegs | src/core/bitboard.cpp:33-45 | each diagonal-then-orthogonal pair of shifts moves a mark by one knight step, without wrapping |
| Bitboard.KnightAttackSquares | src/core/bitboard.cpp:33-45 | `knight_attack_data[pos]` marks exactly the on-board squares a knight's step away |
| Bitboard.LeadingZeros | src/core/bitboard.h:75-79 | `countl_zero`: the count of clear bits above the highest set bit, and the bit below them is set |
| Bitboard.GetPosIsHighestBit | src/core/bitboard.h:75-79 | `bb_get_pos` is the index of the most significant set bit, and -1 exactly for an empty board |
| Bitboard.MarkedExact | src/core/bitboard.cpp:21-31 | the listed indices are exactly the set bits, strictly decreasing, as many as the popcount |
| Bitboard.MarkedSkip | src/core/bitboard.cpp:24-29 | clear bits contribute nothing to the list |
| Bitboard.MarkedPos | src/core/bitboard.cpp:21-31 | the loop, which clears the highest set bit each turn and so terminates, returns `Marked` of the board |
| Bitboard.MarkedPosCorrect | src/core/bitboard.cpp:21-31 | `marked_pos` returns each set bit's index exactly once, most significant first, and its length is the popcount |
| Bitboard.HasOr | src/core/bitboard.cpp:72 | `|` marks a square iff either operand does |
| Bitboard.HasJoin4 | src/core/bitboard.cpp:72 | `a | b | c | d` marks a square iff one of the four does |
| Bitboard.RookLineStep | src/core/bitboard.cpp:66-73 | one more round of the rook loop adds exactly the ring at distance `k` |
| Bitboard.BishopLineStep | src/core/bitboard.cpp:82-89 | one more round of the bishop loop adds exactly the diagonal ring at distance `k` |
| Bitboard.PmaskOnly | src/core/bitboard.cpp:65 | the start mask marks the piece's square only |
| Bitboard.NorthOnly | src/core/bitboard.cpp:68 | shifting a single mark north gives the single square above (or nothing off the board) |
| Bitboard.SouthOnly | src/core/bitboard.cpp:69 | shifting a single mark south gives the single square below |
| Bitboard.WestOnly | src/core/bitboard.cpp:70 | shifting a single mark west gives the single square to its west |
| Bitboard.EastOnly | src/core/bitboard.cpp:71 | shifting a single mark east gives the single square to its east |
| Bitboard.NorthwestOnly | src/core/bitboard.cpp:84 | a single mark shifted northwest |
| Bitboard.NortheastOnly | src/core/bitboard.cpp:85 | a single mark shifted northeast, with the corrected mask |
| Bitboard.SouthwestOnly | src/core/bitboard.cpp:86 | a single mark shifted southwest |
| Bitboard.SoutheastOnly | src/core/bitboard.cpp:87 | a single mark shifted southeast, with the corrected mask |
| Bitboard.RookRoundSquares | src/core/bitboard.cpp:66-73 | one loop round keeps the invariant: the mask holds exactly the rook-line squares up to the next distance |
| Bitboard.BishopRoundSquares | src/core/bitboard.cpp:82-89 | one loop round keeps the invariant for the diagonals |
| Bitboard.RookCopyMask | src/core/bitboard.cpp:61-75 | `rook_copy_mask_data[pos, n]` marks exactly the other squares on the piece's rank or file less than `n` steps away |
| Bitboard.BishopCopyMask | src/core/bitboard.cpp:77-91 | `bishop_copy_mask_data[pos, n]` marks exactly the other squares on the piece's diagonals less than `n` steps away |
| Bitboard.QueenCopyMask | src/core/bitboard.cpp:93-96 | the queen mask is the OR of the rook and bishop masks, so it marks exactly the squares on either kind of line |
| BoardText.HexValueOfDigit | src/core/bitboard.cpp:9 | every `std::hex` digit is read back as its value |
| BoardText.Nibble | src/core/bitboard.cpp:9 | four bits of the board make a value in 0..15, one hexadecimal digit |
| BoardText.RowText | src/core/bitboard.cpp:12-15 | a rank prints two characters per square |
| BoardText.Rows | src/core/bitboard.cpp:10-17 | every rank line is 17 characters with its newline |
| BoardText.BbToString | src/core/bitboard.cpp:6-19 | the loops build exactly `BoardString`: the hexadecimal line, then ranks 8 down to 1 |
| BoardText.WriteRank | src/core/bitboard.cpp:12-16 | the inner loop appends one rank's text and a newline |
| BoardText.RowsStep | src/core/bitboard.cpp:10-17 | the outer loop's next rank extends the rows already written |
| BoardText.RowTextCell | src/core/bitboard.cpp:14 | the square at file `x` prints as `1 ` when set and `. ` when clear |
| BoardText.RowsChar | src/core/bitboard.cpp:10-17 | the `r`-th line printed is rank `7 - r` |
| BoardText.BoardStringLength | src/core/bitboard.cpp:9-17 | the text is 155 characters: `0x`, 16 digits, newline, then 8 lines of 17 |
| BoardText.BoardStringSquare | src/core/bitboard.cpp:10-17 | each square appears at its fixed place with `1` for set and `.` for clear |
| BoardText.BoardStringLineEnds | src/core/bitboard.cpp:16 | every rank line ends with a newline |
| BoardText.HexTextNibble | src/core/bitboard.cpp:9 | the 16 digits are the board's nibbles, most significant first, zero-padded |
| BoardText.BoardStringInjective | src/core/bitboard.cpp:6-19 | different bitboards print differently |
| Lod.ChooseLodBands | ui/scripts/piece.js:60-68 | `chooseLOD` picks the original images exactly from 48 pixels on, tiers 64, 32, 16, 8, 4 exactly on `[24,48)`, `[12,24)`, `[6,12)`, `[3,6)`, `[2,3)`, and tier 2 exactly below 2 |
| Lod.ChooseLodMonotone | ui/scripts/piece.js:60-68 | a larger pixel size never selects a less detailed image set |
| Lod.ChooseLodTierExists | ui/scripts/piece.js:2 | every tier `chooseLOD` can return is one of `LOD_SIZES` |
| Lod.EveryTierChosen | ui/scripts/piece.js:2 | every size in `LOD_SIZES` is returned for some pixel size |
| FenRows.Ones | ui/scripts/parse.js:30-31 | `Array(n).fill('1')`: exactly `n` cells, all `'1'` |
| FenRows.PrependTwice | ui/scripts/parse.js:15-33 | pushing two runs one after the other pushes their concatenation |
| FenRows.PieceLetterExpands | ui/scripts/parse.js:17-22 | a piece letter is not a number, so it is pushed as itself |
| FenRows.ParseRow | ui/scripts/parse.js:12-38 | the row loop returns what `ParsedRow` says: the expanded cells when there are exactly the expected number, an error naming the row otherwise, or the invalid-piece error |
| FenRows.ParseBoard | ui/scripts/parse.js:5-39 | the split, the row-count check and the row map together give `Fen` |
| FenRows.ParseFenAsWritten | ui/scripts/parse.js:1-40 | as written: `boardLengthX` rows of `boardLengthY` cells |
| FenRows.ParseFen | ui/scripts/parse.js:1-40 | corrected: `boardLengthY` rows (ranks) of `boardLengthX` cells (files), as the board drawer indexes them |
| FenRows.RowCellsAreCells | ui/scripts/parse.js:15-33 | every cell of a parsed row is `'1'` or a piece letter |
| FenRows.ParsedRowsShape | ui/scripts/parse.js:11-39 | every row of a parsed board has exactly the expected width, and row `r` is the cells of text row `r` |
| FenRows.FenShape | ui/scripts/parse.js:5-39 | a parsed board has exactly the expected number of rows, each of the expected width, made of cells only, in the text's order |
| FenRows.RowCellsOfCells | ui/scripts/parse.js:15-33 | a row already made of cells parses to itself |
| FenRows.ParsedRowsOfCells | ui/scripts/parse.js:11-39 | rows made of cells of the right width parse to themselves |
| FenRows.FenRoundTrip | ui/scripts/parse.js:1-40 | writing a board's rows joined by `/` and parsing the text gives the board back |
| FenRows.ParseFenDrawable | ui/scripts/parse.js:1-40 | the corrected parse yields exactly the rows and widths the drawer indexes |
| FenRows.ParseFenAsWrittenWrongShape | ui/scripts/parse.js:5-9 | as written, on a board 2 files wide and 3 ranks high, a well-formed 3-rank field is rejected and a 2-rank field of width 3 is accepted |
| JsText.TrimStart | ui/scripts/color.js:93 | what is left after dropping leading white space: a suffix that does not start with white space |
| JsText.TrimEnd | ui/scripts/color.js:93 | what is left after dropping trailing white space: a prefix that does not end with white space |
| JsText.TrimShape | ui/scripts/color.js:93 | `trim` returns a run of the text surrounded only by white space, and the run neither starts nor ends with white space |
| JsText.TrimIdentity | ui/scripts/color.js:93 | a text without white space at its ends is its own trim |
| JsText.Split | ui/scripts/parse.js:5 | `split` gives at least one piece, and no piece holds the separator |
| JsText.JoinSplit | ui/scripts/parse.js:5 | joining the pieces of a split with the separator gives the text back |
| JsText.SplitJoin | ui/scripts/parse.js:5 | splitting pieces free of the separator after joining them gives the pieces back |
| Color.FadeFactorBounds | ui/scripts/color.js:55 | the factor `1 - clamp(fade, 0, 1)` lies in `[0,1]`: 1 for no fade, 0 from 1 on, `1 - fade` in between |
| Color.FadeKeepsHueLightnessAlpha | ui/scripts/color.js:52-58 | the fade fails exactly when the colour does not parse; otherwise it keeps hue, lightness and alpha and multiplies the saturation by the factor |
| Color.IntToStringNoComma | ui/scripts/color.js:8-10 | a printed integer holds no comma, so the printed fields can be told apart |
| Color.AlphaTextInjective | ui/scripts/color.js:8 | different alphas print differently |
| Color.HslToStringInjective | ui/scripts/color.js:4-12 | the printed text gives back the rounded hue and percentages, whether alpha is below 1, and then alpha itself: `hsla` exactly when alpha is below 1 |
| Color.ResolvePresent | ui/scripts/color.js:92-93 | a non-empty token that is its own trim resolves as itself |
| Color.ResolveColorNull | ui/scripts/color.js:92 | the result is `null` exactly for a missing or empty token |
| Color.ResolveColorUnfaded | ui/scripts/color.js:91-116 | without a positive numeric fade, a variable gives its trimmed value and any other token comes back trimmed |
| Color.ResolveColorExempt | ui/scripts/color.js:103 | `--highlight-check` and `--highlight-phantom-board`, written bare or as `var(...)`, keep their value under any fade |
| Color.ResolveVarForms | ui/scripts/color.js:95-99 | `var(--x)` and `--x` resolve alike |
| Color.ResolveNamed | ui/scripts/color.js:100-108 | a token naming a variable resolves through that variable's lookup |
| Color.PlainVarName | ui/scripts/color.js:95 | a token starting with `--` names itself |
| Color.WrappedVarName | ui/scripts/color.js:97-98 | `var(NAME)` names `NAME` |
| Color.ResolveBareName | ui/scripts/color.js:115 | a token that names no variable and does not look like a colour comes back trimmed, whatever the fade |
| Color.ResolveLiteralFaded | ui/scripts/color.js:109-112 | a colour literal that parses becomes its faded `hsl` text under a positive fade |
| Color.OrFallback | ui/scripts/color.js:63-72 | `value.trim() || fallback` is never empty when the fallback is not |
| Color.Fallback | ui/scripts/color.js:63-72 | every theme key has a non-empty fallback |
| Color.LoadColorsEntries | ui/scripts/color.js:60-75 | `loadColors` has exactly the ten theme keys, no empty value, and the fixed fallback for every key whose property is blank |
| Color.ApplyFadeToColors | ui/scripts/color.js:77-89 | the copy has the same keys; a value that parses is faded and any other value is kept |
| Layout.VisibleBoards | ui/scripts/draw.js:103-106 | the board filter keeps a board iff its line is in `[lMin, lMax]`, its column `t<<1|c` in `[vMin, vMax]` and its `fen` is not null |
| Layout.LatestDomain | ui/scripts/draw.js:116-151 | writing each block's list under its colour leaves an entry for a colour iff some block of that colour carries the list |
| Layout.LatestValue | ui/scripts/draw.js:116-151 | a colour's entry is the filtered list of the last block of that colour that carries one |
| Layout.CoordinateHighlightsExact | ui/scripts/draw.js:120-125 | coordinate highlights: a colour is present iff one of its blocks has coordinates, and it holds the squares of the last such block that lie in the window, by the board test without the `fen` condition |
| Layout.ArrowHighlightsExact | ui/scripts/draw.js:128-135 | arrow highlights: the same, keeping exactly the arrows with at least one end in the window |
| Layout.TimelineHighlightsExact | ui/scripts/draw.js:138-142 | timeline highlights: the same, keeping exactly the lines in `[lMin, lMax]` |
| Layout.BoardHighlightsExact | ui/scripts/draw.js:145-150 | board highlights: the same, keeping exactly the boards in the window |
| Layout.FloorOfQuotient | ui/scripts/draw.js:420-421 | `Math.floor(a / b)` is `q` when `a` lies in `[q*b, (q+1)*b)` |
| Layout.PitchFloor | ui/scripts/draw.js:420-421 | a point inside pitch `idx` floors to `idx` |
| Layout.AxisFloor | ui/scripts/draw.js:419-428 | along one axis, a point in cell `cell` of the board at pitch `idx` is read back as that pitch and that cell |
| Layout.ToBoardOfPixel | ui/scripts/draw.js:156-164 | `worldToBoard` of any point in the cell `_getCoordinate` places an on-board square at gives back that square's `l`, `t`, `c`, `x` and `y` |
| Layout.HandleBoardClickExact | ui/scripts/draw.js:430-444 | a click calls back iff `worldToBoard` finds an on-board square, with `onRightClickSquare` for a right click and `onClickSquare` otherwise, passing that square |
| Layout.ClickOnSquare | ui/scripts/draw.js:430-444 | a click anywhere in a square's cell calls back with that square |
| Layout.RenderWindowCovers | ui/scripts/draw.js:404-412 | every world point in the visible rectangle falls on a line and column of the window `renderBoards` computes, so filtered-out boards are off screen |
| Layout.AxisCovers | ui/scripts/draw.js:406-409 | along one axis the pitch of a visible point lies between the floor of the low edge and the ceiling of the high edge |
| Layout.FilterHighlights | ui/scripts/draw.js:115-152 | the loop over colour blocks builds exactly the four highlight maps the `...HighlightsExact` lemmas describe |
| Layout.ChessBoardCanvas.constructor | ui/scripts/draw.js:18-39 | 8 by 8 boards of 10-pixel squares, pitches 100 and 122, one focus point at the origin with index 0, no data, empty cache with null bounds |
| Layout.ChessBoardCanvas.SetData | ui/scripts/draw.js:64-85 | with a size, `boardSkipX = lengthX*square + 20` and `boardSkipY = max(lengthY*square + 20, floor(1.12*boardSkipX))`; without one the geometry is unchanged; a focus list replaces the focus points; the cached bounds always become null |
| Layout.ChessBoardCanvas.FilterBoardData | ui/scripts/draw.js:88-153 | a window equal to the cached bounds changes nothing; otherwise the bounds are cached and, with data, every filtered list is rebuilt for the window |
| Layout.ChessBoardCanvas.GoToNextFocus | ui/scripts/draw.js:469-481 | the index advances by one modulo the number of focus points (NaN on an empty list), and the camera is sent to the middle of the focused board |
| Layout.ChessBoardCanvas.AddFocusPoint | ui/scripts/draw.js:483-485 | the point is appended and the index is left alone |
| Layout.ChessBoardCanvas.SetFocusPoints | ui/scripts/draw.js:487-490 | the list is replaced and the index reset to 0 |
| Layout.FocusTargetOnBoard | ui/scripts/draw.js:476-477 | the focus target lies on a square of the focused board: `worldToBoard` reads back its line, turn and colour |
| Layout.FocusAxis | ui/scripts/draw.js:476-477 | along one axis the middle of a board lies in its pitch, in cell `len / 2` |
| Viewport.AnimationManager.constructor | ui/scripts/canvas.js:7-11 | a new loop is not running and has no previous time stamp |
| Viewport.AnimationManager.Start | ui/scripts/canvas.js:13-18 | a running loop is left alone; otherwise it becomes running, forgets the previous stamp and schedules exactly one frame |
| Viewport.AnimationManager.Stop | ui/scripts/canvas.js:20-22 | only the running flag is cleared |
| Viewport.AnimationManager.Animate | ui/scripts/canvas.js:24-38 | the callback receives the capped frame time, the stamp is recorded, and the loop reschedules (and stays running) iff it was running and the callback asked to continue |
| Viewport.FrameTimeBounds | ui/scripts/canvas.js:25-28 | the frame time is never above 100 ms; it is 20 ms when either stamp is missing, the elapsed time when that is at most 100 ms, and 100 ms otherwise |
| Viewport.IsCloseToAsWrittenNotReflexive | ui/scripts/canvas.js:52-56 | the ratio test as written says a camera at scale 0 is not close to itself |
| Viewport.IsCloseToProperties | ui/scripts/canvas.js:52-56 | the corrected closeness test is reflexive at every scale, equals the ratio test as written whenever the target scale is non-zero, and at target scale 0 holds exactly for nearby poses at scale 0 |
| Viewport.LerpGap | ui/scripts/canvas.js:58-65 | after one easing step every coordinate's remaining gap to the target is the old gap divided by `1 + timeDelta * speed` |
| Viewport.LerpNeverWidens | ui/scripts/canvas.js:61-64 | for a non-negative step the factor lies in `[0, 1)` and no coordinate's gap to the target grows |
| Viewport.LerpMoves | ui/scripts/canvas.js:61-64 | for a positive step a camera that is not at its target moves |
| Viewport.Camera.constructor | ui/scripts/canvas.js:42-46 | the camera holds the given pose |
| Viewport.Camera.Clone | ui/scripts/canvas.js:48-50 | a fresh camera with the same pose |
| Viewport.Camera.LerpTowards | ui/scripts/canvas.js:58-65 | a camera already close to the target is unchanged; otherwise its new pose is the linear interpolation towards the target by the easing factor |
| Viewport.ScreenWorldInverse | ui/scripts/canvas.js:71-91 | at every positive zoom level screen-to-world and world-to-screen are mutual inverses |
| Viewport.VisibleWorldBoundsShape | ui/scripts/canvas.js:93-105 | the visible bounds map back onto the canvas corners, measure `width / zoom` by `height / zoom` and are centred on the camera's `(-x, -y)` |
| Viewport.ConfigOf | ui/scripts/canvas.js:118-125 | each setting missing from the options takes its default: zoom range -5 to 7, zoom speed 0.005, drag speed 1 and lerp speed 0.01 |
| Viewport.ClampProperties | ui/scripts/canvas.js:216-217 | the wheel's clamp lands in `[minZoom, maxZoom]`, keeps values already there, sends values below to the minimum and above to the maximum, and is monotone |
| Viewport.InfiniteScrollableCanvas.constructor | ui/scripts/canvas.js:109-152 | the configuration comes from the options, the target camera sits at `(initialX, initialY, initialZoom)` (default `(0, 0, -1)`), the current camera is a separate copy of it, the input state is cleared and the loop is idle |
| Viewport.InfiniteScrollableCanvas.MouseDown | ui/scripts/canvas.js:168-176 | only the left button presses; it then records the drag anchor (cursor position scaled by `dragSpeed / zoom` minus the target position) and clears the drag flag; nothing else changes |
| Viewport.InfiniteScrollableCanvas.MouseMove | ui/scripts/canvas.js:195-210 | the hover point is the world point under the cursor and becomes the last mouse position; while pressed the target follows the anchor; the drag flag is set |
| Viewport.InfiniteScrollableCanvas.MouseUp | ui/scripts/canvas.js:178-193 | the button is released and the dispatched click is the one `ReleaseDispatch` chooses at the world point under the cursor |
| Viewport.InfiniteScrollableCanvas.MouseLeave | ui/scripts/canvas.js:159-160 | the button counts as released and nothing else changes |
| Viewport.InfiniteScrollableCanvas.Wheel | ui/scripts/canvas.js:212-219 | the target scale moves by `-deltaY * zoomSpeed`, clamped into `[minZoom, maxZoom]`; x, y and the current camera are unchanged and the animation runs |
| Viewport.InfiniteScrollableCanvas.OnAnimationFrame | ui/scripts/canvas.js:229-238 | the current camera takes one easing step towards the unchanged target (none when already close) and the frame asks to continue iff the two are still not close |
| Viewport.InfiniteScrollableCanvas.MoveTo | ui/scripts/canvas.js:275-282 | the target moves to `(-x, -y)` and to the given zoom when one is given, keeping its scale otherwise; the animation runs |
| Viewport.InfiniteScrollableCanvas.ResetView | ui/scripts/canvas.js:284-286 | the target returns to the origin at the configured initial zoom (default -1); the animation runs |
| Viewport.InfiniteScrollableCanvas.GetCamera | ui/scripts/canvas.js:288-290 | a fresh copy of the current camera |
| Viewport.ReleaseDispatchCases | ui/scripts/canvas.js:182-192 | a left release clicks iff the cursor did not move since the press, a right release always right-clicks, any other release does nothing, and a click carries the world point |
| Viewport.DragAnchorReturns | ui/scripts/canvas.js:171-202 | pressing with the target at `t` and moving back to the press position at the same zoom puts the target back at `t` |
| Viewport.AnimationNeverStopsAtScaleZero | ui/scripts/canvas.js:237 | as written, a target at scale 0 is never close to any camera, itself included, so the loop never stops |
| Selection.FindColor | ui/scripts/main.js:71 | the search finds nothing iff no block has the colour, and otherwise gives the first block that has it |
| Selection.AddHighlightKeepsRest | ui/scripts/main.js:67-83 | adding a highlight changes only the highlight list, which is present afterwards |
| Selection.AddHighlightNewColor | ui/scripts/main.js:72-76 | for a colour with no block, one block is appended after the old ones, holding exactly the values under the named field and nothing else |
| Selection.AddHighlightKnownColor | ui/scripts/main.js:77-82 | for a known colour the blocks keep their number and order; the first block of that colour has the values appended to the named field, which is created empty when missing; all other fields and blocks are unchanged |
| Selection.AddHighlightKeepsColorsUnique | ui/scripts/main.js:67-83 | when no two blocks share a colour beforehand, none do afterwards, and the added colour has a block |
| Selection.TargetSquares | ui/scripts/main.js:104 | the generated-move highlight has one square per generated move, at its `l`, `t`, `x`, `y` on the present's colour |
| Selection.PhantomRefs | ui/scripts/main.js:108 | the phantom highlight has one board reference per phantom board, at its `l`, `t` on the other colour |
| Selection.RecolorArrows | ui/scripts/main.js:110-113 | each check arrow keeps its ends and moves both onto the other colour |
| Selection.Page.constructor | ui/scripts/main.js:10-15 | the page starts with no request outstanding, no selection, no generated moves, no present colour, phantoms shown and nothing sent |
| Selection.Page.Deselect | ui/scripts/main.js:56-60 | the selection and the generated moves are dropped and one `view` request is sent; nothing else changes |
| Selection.Page.HandleClick | ui/scripts/main.js:29-54 | while a request is outstanding nothing happens; a square of the other colour only drops an existing selection; a second click sends `apply_move` when the square is a generated target and deselects otherwise; a first click selects the square and sends `gen_move_if_playable` |
| Selection.Page.OnMoves | ui/scripts/main.js:122-132 | the moves are stored; an empty list drops the selection and ends the request, a non-empty one sends one `view` request |
| Selection.Page.OnData | ui/scripts/main.js:101-121 | the present's colour is recorded, the canvas receives the data with the generated-move highlight (and, when phantoms exist and are shown, the phantom boards, their highlight and the check arrows), the HUD light shows whether phantoms exist, and the request ends; the fade the canvas receives is 0.5 when phantoms are shown |
| Selection.ShownKeepsSizeAndFocus | ui/scripts/main.js:101-119 | the data handed to the canvas keeps the message's size and focus, and its boards are the message's boards followed by the phantom boards exactly when phantoms exist and are shown, and its fade is 0.5 in that case and the message's own fade otherwise |
| Action.DigitRun | src/core/action.cpp:10-11 | the `\d+` run: every character before it is a digit and the one after it (if any) is not |
| Action.Parse | src/core/action.cpp:8-42 | a string that matches neither pattern throws with the message "Cannot match this move in any known pattern: " followed by the string; every parsed move has files and ranks on the board; text not starting with `(` is rejected |
| Action.ParseSource | src/core/action.cpp:10-21 | after `(lTt)` and the optional piece letter, a source square on the board or the same error |
| Action.ParseTarget | src/core/action.cpp:16-35 | the first pattern takes the source's line and time for the target, the second an explicit `(lTt)` after optional `>`/`>>`; the source is kept and the target is on the board, or the same error |
| Action.ReadDigitsShow | src/core/action.cpp:18-19 | a printed natural number followed by a non-digit is exactly the digit run and reads back as the number |
| Action.ReadIntShow | src/core/action.cpp:18-32 | a printed integer followed by a non-digit reads back through `-?\d+` and `std::stoi` as itself |
| Action.ParseToString | src/core/action.cpp:44-58 | reading back the text `to_string` prints gives the same move, for every move whose files and ranks are on the board |
| Action.ParseShort | src/core/action.cpp:16-52 | the short form of a move that stays on its board reads back through the first pattern |
| Action.ParseLong | src/core/action.cpp:25-56 | the long form fails the first pattern and reads back through the second |
| Action.TieLessLexicographic | src/core/action.cpp:60-68 | over a strict total order on squares, `operator<` orders by source and then by target, is irreflexive, transitive and total, and two moves are unordered only when they are equal |
| Action.FlagsAt | src/core/action.cpp:83-100 | the branching flag of move `i` is computed from the `moved_lines` left by the moves before it |
| Action.PickPartition | src/core/action.cpp:91-99 | the branching and non-branching picks together are a permutation of the moves |
| Action.PickAll | src/core/action.cpp:101 | when every move branches, the branching pick is all of them and the other is empty |
| Action.PickAppend | src/core/action.cpp:83-100 | picking distributes over concatenation |
| Action.Overwrite | src/core/action.cpp:104-107 | the written stretch holds the new values and the rest of the array is unchanged |
| Action.SwapLoopArranges | src/core/action.cpp:83-100 | run to the end from an arranged state, the swap loop leaves the branching moves in order at the front and the others, permuted, behind them |
| Action.SwapLoopResult | src/core/action.cpp:80-100 | from the start, the loop's `branching_index` counts the branching moves, which end at the front in their original order, with the non-branching moves permuted behind them |
| Action.SwapBranchingForward | src/core/action.cpp:80-100 | the in-place swap loop leaves the array and `branching_index` that the loop's specification computes |
| Action.SortTailAndRotate | src/core/action.cpp:101-108 | the moves behind `b` are sorted by `sign * to.l` (sign -1 for black), permuted only, and rotated to the front, with the first `b` moves behind them |
| Action.SortSteps | src/core/action.cpp:78-109 | the swap loop followed by the sort and rotate (or nothing, when every move branches) yields the arrangement `action::sort` promises and is a permutation |
| Action.Sort | src/core/action.cpp:78-109 | the moves end up with the non-branching ones first, ordered by `sign * to.l`, followed by the branching ones in their original order, and are a permutation of the input |
| Action.FromVector | src/core/action.cpp:111-116 | the action holds a permutation of the moves arranged as `action::sort` promises, and keeps the given order when every move branches |
| Action.ShowAction | src/core/action.cpp:123-130 | a non-empty action prints as text ending in a space |
| Action.ShowActionAppend | src/core/action.cpp:123-130 | the text of the concatenation of two move lists is the two texts one after the other |
| State.SkipSpaces | src/core/state.cpp:36-37 | the leading white space `std::stoi` skips: the result is a suffix of the input that does not start with a space |
| State.Stoi | src/core/state.cpp:36-37 | `std::stoi` either yields a value within `int` or reports `invalid_argument` or `out_of_range` |
| State.Digits | src/core/state.cpp:36-37 | the digits after the sign yield a value within `int`, or an error |
| State.StoiShow | src/core/state.cpp:36-37 | a number within `int` printed in decimal and followed by a non-digit converts back to itself |
| State.StoiNeedsDigit | src/core/state.cpp:36-43 | text without a digit makes `std::stoi` throw `invalid_argument` |
| State.FindChar | src/core/state.cpp:32-33 | `find` gives the first position holding the character, or reports that the character does not occur |
| State.ParseSize | src/core/state.cpp:30-46 | the size header (default "8x8") either yields a width and a height in `1..BOARD_LENGTH` or throws one of the three size messages, each carrying the header text |
| State.ParseSizeText | src/core/state.cpp:32-46 | the same for the size text itself: no 'x' is a format error, a missing number is a number error, anything outside `1..BOARD_LENGTH` or `int` is a range error |
| State.ParseSizeTextShow | src/core/state.cpp:32-46 | writing a supported size as `<w>x<h>` reads back as `(w, h)` |
| State.ParseSizeDefault | src/core/state.cpp:30 | without a size header the board is 8 by 8 |
| State.ParseSizeShow | src/core/state.cpp:30-46 | a size header `<w>x<h>` gives back `(w, h)` for every supported size |
| State.ParseSizeFormat | src/core/state.cpp:32-34 | the format error is raised exactly when the size text has no 'x' |
| State.DefaultVariant | src/core/state.cpp:56-88 | each of the three built-in variants has odd timelines, at least one board and a supported size |
| State.CustomNotDefault | src/core/state.cpp:55-102 | no custom board name is also the name of a built-in variant |
| State.ChooseVariant | src/core/state.cpp:49-118 | the board header fails exactly when no 5DFEN board is given and the header is missing or names no built-in variant, with the "unspecific" or "unknown variant" message; given boards are kept with the parsed size and only a custom name sets the parity; otherwise the built-in variant supplies parity, size and boards |
| State.DetectEven | src/core/state.cpp:119-129 | without a parity from the header, the timelines are even exactly when some board lies on an explicitly signed line 0 |
| State.LineLabel | src/core/state.cpp:131-148 | for non-negative numbers the label is negative exactly for a `-` sign (and, with odd timelines, a non-zero number), and the number can be read back from the label: `~n` with even timelines, `-n` with odd ones |
| State.EvenLabelsSeparate | src/core/state.cpp:134-138 | with even timelines two boards share a line exactly when they have the same number and the same side of zero |
| State.OddLabelsMergeZero | src/core/state.cpp:143-147 | with odd timelines the sign matters only away from zero: `-0`, `+0` and `0` are all line 0 |
| State.ReadHeaders | src/core/state.cpp:18-150 | the constructor's header handling fails with the size error, then with the board-header error; otherwise it takes the size and boards the variant settles, the header's parity or the detected one, and labels every board by that parity |
| State.PresentIsEarliest | src/core/state.cpp:744-747 | the present is no later than the end of any active line, and when some line is active it is the end of one of them |
| State.AppendLine | src/core/state.cpp:323-375 | appending a board makes its line end one turn later and changes no other line or range |
| State.InsertLineEffect | src/core/state.cpp:395-401 | a line inserted next to the range ends at the given turn, the ranges widen to take it in, the active range follows the multiverse's rule and stays balanced when it was, and every other line keeps its end |
| State.NewLine | src/core/state.cpp:221-228 | a new line goes past the last line for white and before the first line for black |
| State.ApplySpec | src/core/state.cpp:278-411 | a move the generator does not offer is refused; an accepted move keeps the player, keeps the lines well formed and never moves the present later |
| State.ApplyAllValid | src/core/state.cpp:258-268 | applying an action's moves in order keeps the lines well formed and the player unchanged |
| State.ApplyInPlace | src/core/state.cpp:313-377 | a physical move adds one board on its line; a non-branching jump adds one on the source line and one on the target line; every other line, the range and the present are unchanged |
| State.ApplyBranching | src/core/state.cpp:378-409 | a branching move adds `new_line()` on the mover's side, ending just after the arrival turn; the source line gains a board; the present drops to the new present when that is earlier |
| State.SubmitFlips | src/core/state.cpp:511-524 | a successful submit hands the move to the other colour at the multiverse's present, and submitting again at once is refused |
| State.ActionWithoutMoves | src/core/state.cpp:258-275 | an action without moves is accepted exactly when a bare submit is |
| State.LinesWithExact | src/core/state.cpp:546-573 | a line is listed exactly when it lies in the range and has the status, and the list is strictly increasing |
| State.LinesPartition | src/core/state.cpp:552-571 | every line of the range is in exactly one of the three status lists |
| State.GameState.constructor | src/core/state.cpp:13-16 | a state built from a multiverse takes that multiverse's present |
| State.GameState.Submit | src/core/state.cpp:511-524 | `submit` is refused (and changes nothing) while the present is still the colour to move; otherwise the state's present becomes the multiverse's |
| State.GameState.ApplyMove | src/core/state.cpp:278-411 | the new state is the one the case split of `apply_move` describes, and a refused move changes nothing |
| State.GameState.CanSubmit | src/core/state.cpp:230-242 | the state a submit on a copy would reach, or nothing when the submit is refused |
| State.GameState.CanApply | src/core/state.cpp:244-256 | the state one move on a copy would reach, or nothing when the move is refused |
| State.GameState.ApplyMoves | src/core/state.cpp:261-268 | the moves are applied one by one and the loop stops at the first refused one, with the result that applying them in order gives |
| State.GameState.CanApplyAction | src/core/state.cpp:258-275 | all moves of the action on a copy and then a submit, or nothing as soon as one of them is refused |
| State.GameState.GetTimelineStatus | src/core/state.cpp:546-573 | the three lists hold the lines that are mandatory (active and ending at the present), optional (ending on the present's colour) and unplayable, each in increasing order |
| State.PawnMatchesAreMatches | src/core/state.cpp:848-906 | every pawn match is a match, so there are no more pawn matches than matches |
| State.ChooseMove | src/core/state.cpp:822-926 | all matches are returned; the move chosen is the unique match, else the unique pawn match, else none; the promotion piece goes with a chosen move only |
| Pretty.PieceText | src/core/state.inl:21-32 | the piece letter is left out exactly for a pawn without `SHOW_PAWN`, and is otherwise the moving piece's white letter |
| Pretty.PrettyMoveImpl | src/core/state.inl:14-104 | the stream written piece by piece holds the move's notation: source board, piece letter, source square, for a jump the marker, capture mark and target board (else the capture mark), target square, promotion and check symbol |
| Pretty.MoveTextPieces | src/core/state.inl:20-102 | the pieces the printer writes, in the order it writes them, put together give the move's text |
| Pretty.PrettyMove | src/core/state.inl:2-12 | `pretty_move` prints the move with the check symbol worked out from whether the move checks the opponent |
| Pretty.SquareText | src/core/state.inl:33 | squares on the board print as a file `a`-`h` and a rank `1`-`8`, and two squares print alike only when they are the same |
| Pretty.RenderStart | src/core/state.inl:20-33 | the text starts with the source board, the piece letter (none for a pawn without `SHOW_PAWN`) and the source square |
| Pretty.PhysicalSquaresDetermined | src/core/state.inl:74-85 | two moves within one board whose texts are equal (same flags, same state) have the same squares |
| Pretty.PhysicalCaptureMark | src/core/state.inl:74-84 | on a move within its board the character after the source square is `x` exactly when captures are shown and the target is occupied |
| Pretty.JumpMarker | src/core/state.inl:34-44 | a jump prints `>` after the source square, followed by a second `>` exactly when the arrival is before the end of the target line |
| Pretty.TailStart | src/core/state.inl:85 | the part after the jump or the capture starts with the target square |
| Pretty.CheckIgnoredWithoutMate | src/core/state.inl:93-102 | without `SHOW_MATE` the check symbol never reaches the text |
| Pretty.LastWithoutCheck | src/core/state.inl:85-92 | without a check symbol a move's text ends in a rank digit or the promotion piece |
| Pretty.CheckSuffix | src/core/state.inl:93-102 | corrected: with `SHOW_MATE` the text ends in `+` exactly when the move checks the opponent |
| Pretty.CheckSymbolAsWrittenIsOne | src/core/state.inl:9 | as written, `checking_opponent && '+'` makes the check symbol of a checking move the char 1, which is printed but is not `+` |
| Pretty.DiffInjective | src/core/state.inl:55-62 | `show_diff` prints different numbers differently |
| Pretty.RelativeDetermines | src/core/state.inl:52-68 | corrected: the relative target gives back the differences of line and time |
| Pretty.RelativeAsWrittenLosesJump | src/core/state.inl:63-67 | as written, the differences of file and rank sit under the `L` and `T` labels, so the jumps to the next and to the previous line on the same square print alike as `$(L=T=)` |
| Pretty.LastCheck | src/core/state.inl:111-121 | `last_check_pos` is the last move that checks the opponent, or the number of moves when none does |
| Pretty.ActionTextsIgnoreChecks | src/core/state.inl:137-143 | `pretty_action` prints with `SHOW_CAPTURE` only, so the check symbols it works out never change its text |
| Pretty.FindLastCheck | src/core/state.inl:111-121 | the first loop succeeds exactly when every move can be made, and then finds the last checking move |
| Pretty.PrettyAction | src/core/state.inl:106-149 | an action with a move that cannot be made prints as "---INVALID ACTION---"; otherwise its text is the moves' texts, each on the state the moves before it reach, joined by single spaces |
| Pretty.WrittenDrop | src/core/state.inl:144-148 | what the second loop writes is empty exactly for an action without moves, and dropping its last space leaves the join of the texts |
| Pretty.WriteNext | src/core/state.inl:139-142 | one turn of the second loop appends the next move's text and a space |
| Pretty.WriteMoves | src/core/state.inl:135-148 | the second loop yields the moves' texts joined by single spaces |
| Game.UndoRedo | src/core/game.cpp:205-238 | undo and redo keep the history chained, each reverses the other when it applies, and neither changes the cached entries |
| Game.ChainReplay | src/core/game.cpp:240-252 | every cached state is the node's state with the moves up to that entry replayed in order |
| Game.ApplyMoveEffect | src/core/game.cpp:240-252 | `apply_move` succeeds exactly when the shown state takes the move; the history stays chained, the redo entries are dropped, the new state is shown with nothing left to redo, and the move follows the moves up to the old shown state |
| Game.AdvanceChained | src/core/game.cpp:246-248 | keeping the entries up to the shown one and appending the new state leaves the history chained |
| Game.SubmittedMovesReachShown | src/core/game.cpp:254-271 | corrected: the submitted moves are exactly those leading from the node's state to the shown state, whose `can_submit` was checked |
| Game.SubmitAsWrittenTakesUndone | src/core/game.cpp:259-266 | as written, with two moves made and one undone, `submit` hands on both moves, although only the first leads to the shown state |
| Game.ChildStepPlace | src/core/game.cpp:357-375 | `visit_child` reaches a child of the current node, and that child has the requested moves |
| Game.ChildStepFound | src/core/game.cpp:360-369 | an existing child is visited exactly when one has the requested moves, and then the tree is unchanged |
| Game.ChildStepStates | src/core/game.cpp:370-374 | every node that existed keeps its state, whether a child is added or not |
| Game.ChildStepAgain | src/core/game.cpp:357-375 | visiting the same moves again from the same node finds the child the first visit reached and adds nothing |
| Game.ShowComments | src/core/game.cpp:13-24 | each comment is wrapped in braces and neighbours are separated by one space |
| Game.ConsistentState | src/core/game.cpp:113-118 | the history starts at the state `get_state` gives for the current node |
| Game.Game.constructor | src/core/game.cpp:26-31 | the root is current and its state is the only entry, with no move |
| Game.Game.Fresh | src/core/game.cpp:113-118 | the history restarts at the current node's state, which `get_state` computes and caches without changing any node's state; when that throws, the history is empty |
| Game.Game.CanUndo | src/core/game.cpp:205-208 | undo is possible exactly when the shown entry is not the first |
| Game.Game.CanRedo | src/core/game.cpp:210-213 | redo is possible exactly when the shown entry is not the last |
| Game.Game.Undo | src/core/game.cpp:220-228 | one entry back when possible, reporting whether it was; the tree and the current node stay |
| Game.Game.Redo | src/core/game.cpp:230-238 | one entry on when possible, reporting whether it was; the tree and the current node stay |
| Game.Game.ApplyMove | src/core/game.cpp:240-252 | the new history is the one `Advance` describes when the shown state takes the move, and the old one otherwise |
| Game.Game.CanSubmit | src/core/game.cpp:215-218 | whether the shown state can submit |
| Game.Game.VisitChild | src/core/game.cpp:357-375 | the game moves to the first child with the action's moves, or to a new last child without a state, restarts its history there, and reports whether the child existed |
| Game.Game.ToChild | src/core/game.cpp:360-372 | the child found or added is the one `ChildStep` picks, and the history is not touched yet |
| Game.Game.Submit | src/core/game.cpp:254-271 | refused, with nothing changed, unless the shown state can submit; otherwise the moves up to the shown entry, ordered by `from_vector` against the node's state, become the action of the child visited |
| Game.Game.VisitParent | src/core/game.cpp:335-341 | nothing happens at the root; otherwise the parent becomes current and the history restarts at its state |
| Game.CollectMoves | src/core/game.cpp:259-266 | corrected: the loop collects the moves of the entries up to the shown one, in order |
| GameTree.AtParent | src/core/gametree.h:70-72 | the parent of a node is on a valid path, and the node is the parent's child at the last step of its path |
| GameTree.AtChild | src/core/gametree.h:77-79 | a child of a node is reached by one more step down |
| GameTree.SetStateErase | src/core/gametree.h:48 | storing a state changes nothing but states: the tree without its states is the same |
| GameTree.SetStateAt | src/core/gametree.h:48 | after storing a state every old path still leads to a node with the same action, and with the same state except at the node stored to |
| GameTree.SetStatePreserves | src/core/gametree.h:40-55 | caching a node's own state changes no node's answer to `get_state` |
| GameTree.GetState | src/core/gametree.h:40-55 | `get_state` returns the stored state, or the parent's state with the node's action applied, or the error for a root without a state; it caches the state in the node and changes no node's answer |
| GameTree.ExtendsStates | src/core/gametree.h:73-76 | a tree grown by adding children gives every old node the state it had |
| GameTree.GraftEffect | src/core/gametree.h:73-76 | `add_child` makes the new child the node's last child, keeps its earlier children and keeps the old tree whole |
| GameTree.NewChildState | src/core/gametree.h:26-76 | a child created without a state and added to a node has that node's state with the child's action applied |
| GameTree.ChildStateAt | src/core/gametree.h:46-50 | a child without a stored state has its parent's state with its own action applied, or the parent's error |
| GameTree.GraftKeepsStates | src/core/gametree.h:73-76 | adding a child changes no existing node's state |
| GameTree.FirstWith | src/core/gametree.h:80-90 | the search gives the first child from the start index whose action equals the one asked for, or reports that none does |
| GameTree.FindChild | src/core/gametree.h:80-90 | `find_child` gives the first child whose action equals the one asked for, or `nullptr` |
| GameTree.Clone | src/core/gametree.h:30-39 | the copy is the same tree, child by child |
| GameTree.ToString | src/core/gametree.h:91-140 | the text written is the node's head (the turn, the parent's `pretty_action` and the annotation; the annotation alone at the root) followed by its children as `Variations` prints them |
| GameTree.WriteChildren | src/core/gametree.h:127-138 | every child but the last is written in parentheses with a full turn display, then the last child, in full only when there are several |
| GameTree.VariationsParenthesised | src/core/gametree.h:91-140 | with move and annotation texts free of `(`, the printed tree holds a parenthesis exactly when some node has more than one child |
| GameTree.VariationsFrom | src/core/gametree.h:127-138 | the children from `i` on print a parenthesis exactly when at least two remain or one of them has a variation |
| GameTree.VariationsOpen | src/core/gametree.h:129-132 | before the last child, what is written opens a parenthesis |
| GameTree.VariationsOfLast | src/core/gametree.h:134-138 | at the last child, what is written is that child's text, in full only when the node has several children |
| Hypercuboid.StepsCover | src/core/hypercuboid.cpp:67-68 | `k` unit steps in the direction of a sliding displacement cover it exactly when `k` is the displacement's step count |
| Hypercuboid.GetMovePath | src/core/hypercuboid.cpp:60-88 | a non-sliding piece gets the empty path and type 0; a sliding piece gets type 1 to 4, the number of axes it moves along, and the squares stepped through from the origin up to the target |
| Hypercuboid.Between | src/core/hypercuboid.cpp:78-81 | the stepping loop collects the squares `p + c, p + 2c, ...` short of `q` |
| Hypercuboid.WalkBetween | src/core/hypercuboid.cpp:60-88 | the path of a sliding move contains neither end, repeats no square, and one more step from its last square reaches the target |
| Hypercuboid.FindProblem | src/core/hypercuboid.cpp:479-487 | the jump-order problem if there is one, else the present problem, else the check problem; no problem exactly when all three tests find none |
| Hypercuboid.Search | src/core/hypercuboid.cpp:1023-1063 | the worklist loop, popping the last hypercuboid and appending the remaining pieces, yields exactly the action sequence of the recursive definition `Yields` |
| Hypercuboid.YieldsSound | src/core/hypercuboid.cpp:1036-1048 | every action yielded comes from a point taken from a hypercuboid at which no problem was found |
| Hypercuboid.MaxOf | src/core/hypercuboid.cpp:998 | the largest key of a non-empty set of lines (the last one `std::map` visits) |
| Hypercuboid.MaxExists | src/core/hypercuboid.cpp:998 | every non-empty finite set of lines has a largest element |
| Hypercuboid.SortedKeysSound | src/core/hypercuboid.cpp:998 | the order in which the map of lines is visited lists every line once, in increasing order |
| Hypercuboid.SortedKeysLast | src/core/hypercuboid.cpp:998 | the largest line is visited last |
| Hypercuboid.AscendingKeys | src/core/hypercuboid.cpp:998 | the loop produces exactly the increasing visiting order of the lines |
| Hypercuboid.PickMoves | src/core/hypercuboid.cpp:998-1009 | the loop over the lines collects exactly the moves of the specification `Picked` |
| Hypercuboid.ToAction | src/core/hypercuboid.cpp:995-1016 | `to_action` returns exactly the specification `ActionOf` of the point |
| Hypercuboid.PickedMoves | src/core/hypercuboid.cpp:998-1009 | the moves picked are those of the physical and arriving semimoves on the visited lines, one per such line, and nothing from null or departing semimoves |
| Hypercuboid.ActionOfMoves | src/core/hypercuboid.cpp:995-1016 | the action holds, for every line whose semimove is physical or arriving, that move and nothing else; white's moves are in increasing line order and black's are the same moves reversed |
| Hypercuboid.Group | src/core/hypercuboid.cpp:130-150 | the grouping loop produces exactly the specification `Grouped` of the generated moves |
| Hypercuboid.GroupedMeaning | src/core/hypercuboid.cpp:130-150 | `stays_on[l]` holds the moves staying on line `l`, `arrives_to[l]` the jumps to line `l` and `departs_from[l]` the pieces of line `l` with at least one jump, each in generation order; no departure list is empty |
| Hypercuboid.DepartsFromLine | src/core/hypercuboid.cpp:130-142 | the departures listed for line `l` are movable pieces standing on `l`, none listed twice when the generator lists each piece once |
| Hypercuboid.AddPhysical | src/core/hypercuboid.cpp:160-202 | the moves staying on a line that leave no physical check are appended in order |
| Hypercuboid.AddDepartures | src/core/hypercuboid.cpp:205-217 | the safe departures are appended in order, each registered in `jump_indices` with the coordinate it lands at; nothing registered before changes |
| Hypercuboid.AddArrivals | src/core/hypercuboid.cpp:219-242 | the jumps arriving on the last board of a line, when it is the mover's board, that leave no physical check are appended in order |
| Hypercuboid.BuildLineAxis | src/core/hypercuboid.cpp:158-242 | one line's axis is the null move, then its physical moves, then its safe departures, then its non-branching arrivals; every safe departure of the line and nothing else is newly registered at its coordinate |
| Hypercuboid.DepartsOnLine | src/core/hypercuboid.cpp:205-207 | the departures listed for line `l` stand on `l` and none is listed twice, so the assertion that a departure is not yet registered holds |
| Hypercuboid.KeepRegistered | src/core/hypercuboid.cpp:243-247 | saving a new line's axis keeps every registered departure at its place and puts the new ones on the new axis |
| Hypercuboid.JumpsStep | src/core/hypercuboid.cpp:205-217 | after visiting line `l` the registered departures are exactly the safe departures of the lines visited so far |
| Hypercuboid.AddLine | src/core/hypercuboid.cpp:156-248 | one round of the loop over the playable lines gives line `l` the next axis, holding its line axis, and keeps the registry sound |
| Hypercuboid.BuildLineAxes | src/core/hypercuboid.cpp:156-248 | the `k`-th playable line gets axis `k` holding its line axis; exactly the safe departures of the playable lines are registered, each at the place its departing semimove lies |
| Hypercuboid.CountBranches | src/core/hypercuboid.cpp:253-261 | `max_branch` is the number of lines with a non-empty departure list |
| Hypercuboid.BranchLines | src/core/hypercuboid.cpp:253-261 | those are exactly the lines from which some generated move jumps |
| Hypercuboid.AddBranchArrivals | src/core/hypercuboid.cpp:267-286 | the jumps to one line whose departure is registered and which leave no physical check are appended in order, each carrying its departure's coordinate |
| Hypercuboid.AddBranchLines | src/core/hypercuboid.cpp:265-287 | the loop over the target lines appends the branching jumps of each line in increasing line order |
| Hypercuboid.BuildBranchAxis | src/core/hypercuboid.cpp:262-287 | the branching axis is the null move on the new line followed by the branching jumps |
| Hypercuboid.NewLineInjective | src/core/hypercuboid.cpp:290-296 | distinct replica indices get distinct new line numbers, so the assertion that the new line is not yet mapped does not fail among the replicas |
| Hypercuboid.AddBranchAxes | src/core/hypercuboid.cpp:289-297 | `count` copies of the branching axis are appended; the `k`-th serves new line `new_line + sign * k`, the old axes and the old line map are kept, and no other line is added |
| Hypercuboid.Coordinates | src/core/hypercuboid.cpp:302-312 | an axis's coordinates are `0 .. size - 1` |
| Hypercuboid.FillAxis | src/core/hypercuboid.cpp:315-335 | registered arrivals get their departure's coordinate, and the coordinates of the other arrivals leave the universe |
| Hypercuboid.FillAxes | src/core/hypercuboid.cpp:301-335 | every axis is filled, and its universe holds exactly the coordinates of its live semimoves |
| Hypercuboid.LinkedAfterFill | src/core/hypercuboid.cpp:322-327 | after the fill every arrival left in the universe points at the departing semimove of its own piece on its departure line's axis, as the loop's assertion states |
| Hypercuboid.BranchAxisFixed | src/core/hypercuboid.cpp:315-335 | the fill leaves the branching axis unchanged, since its arrivals already carry their indices |
| Hypercuboid.RegisteredWithBranches | src/core/hypercuboid.cpp:289-297 | appending the branching axes moves no registered departure |
| Hypercuboid.RawLayout | src/core/hypercuboid.cpp:156-297 | before the fill there is one axis per playable line in order, then one branching axis per line with a departure; every axis starts with the null move, and the line map and registry are as stated for the parts |
| Hypercuboid.NullFirst | src/core/hypercuboid.cpp:302-335 | every axis still holds the null move at coordinate 0 after the fill, and the universe keeps it |
| Hypercuboid.BuildHC | src/core/hypercuboid.cpp:106-346 | `build_HC` gives the playable lines axes `0 ..`, each the filled line axis; the new lines the branching axes from `new_axis` on; every axis starts with the null move, kept in the universe; the universe holds exactly the live coordinates; every live arrival is linked to its departure |
| Bot.Int16 | src/bot/bot.cpp:51-69 | the stored depth is the depth modulo 2^16 read back as a signed 16-bit value, and a depth already in range is kept |
| Bot.RoundDown | src/bot/bot.cpp:20-24 | the rounding loop ends at a power of two `p` with `p <= max(entries, 1) < 2p` |
| Bot.RoundDownUnique | src/bot/bot.cpp:20-24 | only one power of two satisfies that bound, so the table has the largest power-of-two size that fits, and at least one entry |
| Bot.DefaultTableSize | src/bot/bot.cpp:18-26 | a 128 MB table of 40-byte entries has 3355443 entries, rounded down to 2^21 |
| Bot.MaskIsMod | src/bot/bot.cpp:47 | masking the hash with `size - 1` gives the hash modulo the power-of-two size |
| Bot.TranspositionTable.constructor | src/bot/bot.cpp:18-26 | the table has the power-of-two size of `RoundDown`, every entry empty, age 0 |
| Bot.TranspositionTable.Slot | src/bot/bot.cpp:47 | a position's slot is its hash modulo the table size, inside the table |
| Bot.TranspositionTable.Clear | src/bot/bot.cpp:28-38 | every entry becomes the empty entry; the size and the current age are kept |
| Bot.TranspositionTable.NewSearch | src/bot/bot.cpp:40-43 | the current age grows by one modulo 256 (an 8-bit counter) and nothing else changes |
| Bot.TranspositionTable.Store | src/bot/bot.cpp:45-74 | the table becomes `StoreAt` of the old table at the position's slot: replaced when the slot is empty, holds the same position, is from another search, or is no deeper; otherwise unchanged |
| Bot.TranspositionTable.Probe | src/bot/bot.cpp:76-100 | found exactly when the slot holds the same hash; then the slot's fields are copied out, otherwise the caller's entry is returned unchanged |
| Bot.TranspositionTable.GetStats | src/bot/bot.cpp:102-111 | the number of slots with a non-zero hash and the table size; the first never exceeds the second |
| Bot.StoreThenProbe | src/bot/bot.cpp:45-100 | after a store that replaces, a probe of the same hash finds exactly the data just written; probes of other slots see no change |
| Bot.StoreKeepsDeeper | src/bot/bot.cpp:56-62 | within one search, a slot holding another position is overwritten exactly when the new search is at least as deep |
| Bot.CountFilledUpdate | src/bot/bot.cpp:102-111 | overwriting one slot changes the filled count by what that slot held and now holds |
| Bot.StoreNeverEmpties | src/bot/bot.cpp:45-74 | storing a non-zero hash raises the filled count by at most one and never lowers it |
| Bot.CountFilledEmpty | src/bot/bot.cpp:28-38 | a cleared table has no filled slot |
| Bot.PieceValue | src/bot/bot.cpp:190-207 | values lie in 0..1000; zero exactly for kings and non-pieces; 1000 exactly for the royal queen |
| Bot.ScoreTimelineJump | src/bot/bot.cpp:454-477 | the loop computes the specification `JumpScore` of the action |
| Bot.JumpScoreCounts | src/bot/bot.cpp:458-474 | the score is 500 per line change, plus 200 per line change into the active range, plus 300 per time change |
| Bot.JumpScoreZero | src/bot/bot.cpp:454-477 | the score is zero exactly when no move changes its line or its time |
| Bot.ScoreCenterControl | src/bot/bot.cpp:479-497 | the loop computes the specification `CenterScore` of the action |
| Bot.CenterScoreDistance | src/bot/bot.cpp:479-497 | the score is 40 per move less 5 per square of Manhattan distance from the centre; at most 40 per move, reached exactly when every move lands on the centre square |
| Bot.Pairs | src/bot/bot.cpp:524-526 | each yielded action is paired with its own score, in order |
| Bot.SampleActions | src/bot/bot.cpp:511-545 | a negative limit fails (`reserve` throws); otherwise the result is sorted by descending priority, has `min(limit, collected)` elements, is a sub-multiset of the first `2 * limit` actions yielded, and no dropped candidate scores above a kept one |
| Bot.SortedCutIsTop | src/bot/bot.cpp:533-540 | any ordering `std::sort` may choose, cut at the limit, keeps the best candidates |
| Bot.TopScored | src/bot/bot.cpp:521-543 | every kept action is one of the first `2 * limit` actions yielded, with its own score, and as many are kept as the limit allows |
| Bot.TopPrioritiesDetermined | src/bot/bot.cpp:533-540 | any two results keeping the best candidates agree in length and in their priorities position by position; only the order of ties is open |
| Streams.Cdr | src/misc/stream.h:49-52 | the tail has an element at position `k` exactly when the stream has one at `k + 1` |
| Streams.Nil | src/misc/stream.h:117-121 | `snil()` is empty |
| Streams.DropElems | src/misc/stream.h:49-52 | after `k` tails, position `j` holds the stream's element `k + j`, the length drops by `k`, and the result is empty exactly when the stream had `k` elements |
| Streams.NaturalsUnfold | src/misc/stream.h:125-128 | `naturals(start)` has head `start` and tail `naturals(start + 1)` |
| Streams.NaturalsNth | src/misc/stream.h:125-128 | after `k` tails the head of `naturals(start)` is `start + k` |
| Streams.TakeUnfold | src/misc/stream.h:130-140 | `take(n, s)` is empty exactly when `n == 0` or `s` is empty; otherwise its head is that of `s` and its tail is `take(n - 1, cdr(s))` |
| Streams.TakeIsPrefix | src/misc/stream.h:130-140 | for `n >= 0`, `take(n, s)` is finite with at most `n` elements, exactly `n` when `s` has that many, each equal to the element of `s` at the same position |
| Streams.MapUnfold | src/misc/stream.h:142-150 | `map(f, s)` is empty exactly when `s` is, has the same length, holds `f` of each element, and unfolds as `f(car)` before `map(f, cdr)` |
| Streams.Elements | src/misc/stream.h:107-114 | the elements of a finite stream, as many as its size, in position order |
| Streams.FilterKeepsOrder | src/misc/stream.h:152-169 | on a finite stream `filter` keeps exactly the elements satisfying `f`, in their order |
| Streams.FilterFirstAll | src/misc/stream.h:152-169 | on a finite stream, looking at all its elements gives `filter` itself |
| Streams.ElementsTakeNext | src/misc/stream.h:130-140 | the first `m + 1` elements of an endless stream are the first `m` followed by element `m` |
| Streams.FilterFirstNext | src/misc/stream.h:159-168 | on an endless stream each further element is appended to what `filter` has produced exactly when it passes |
| Streams.FilterFirstUnfold | src/misc/stream.h:159-168 | on an endless stream `filter` follows its recursion: a passing head comes first, then the filtered tail; a failing head is skipped |
| Streams.FilterFirstGrows | src/misc/stream.h:152-169 | looking further into an endless stream only extends what `filter` has produced |
| Streams.TakeFilterEndless | src/misc/stream.h:130-169 | any two looks far enough to hold `n` passing elements agree on them, so `take(n, filter(f, s))` is determined |
| Streams.FilterFirstAt | src/misc/stream.h:152-169 | the `k`-th element `filter` produces is the element at some position `j` where `f` holds and exactly `k` passing elements come before `j` |
| Streams.Node.constructor | src/misc/stream.h:28-29 | a fresh node holds its head and its thunk, with no cached tail and the thunk not yet evaluated |
| Streams.Node.PtrCdr | src/misc/stream.h:40-48 | the tail is the thunk's value; the thunk is evaluated on the first call only and the cached tail returned afterwards |
| Streams.Iterator.Increment | src/misc/stream.h:83-91 | one position on, or the end when that passes the last element; the end stays the end |
| Streams.Walk | src/misc/stream.h:53-114 | iterating a finite stream from `begin()` to the end visits exactly its elements, once each, in order |
| Seqs.Filter | ui/scripts/draw.js:103-106 | `Array.prototype.filter`: no longer than its input, everything kept passes the test and comes from the input, and every passing element is kept |
| Seqs.FilterAppend | ui/scripts/draw.js:103-106 | filtering a concatenation filters each part and concatenates, so the kept elements stay in input order |
| Seqs.FilterMultiset | ui/scripts/draw.js:103-106 | a passing value is kept as many times as it occurs, a failing one never |
| Seqs.SortBy | src/core/action.cpp:104-106 | `std::sort` by a key: the result is an ascending permutation of the input |
| PgnLexer.Initial | src/core/pgnparser.cpp:30-34 | the buffer starts at the turn before the start turn, so the first turn serial expected is the start turn |
| PgnLexer.DigitsEnd | src/core/pgnparser.cpp:129-134 | the digit loop stops at the first non-digit or the end, having passed only digits |
| PgnLexer.SpaceEnd | src/core/pgnparser.cpp:264-270 | the whitespace loop stops at the first non-space or the end, having passed only spaces |
| PgnLexer.EvalEnd | src/core/pgnparser.cpp:196-207 | the `?`/`!` loop stops at the first other character or the end, having passed only `?` and `!` |
| PgnLexer.CloseBracket | src/core/pgnparser.cpp:226-234 | the scan finds the first `]` at or after its start, or reports that none is left |
| PgnLexer.CloseBrace | src/core/pgnparser.cpp:241-250 | the brace scan, when it succeeds, stops on a `}` inside the input |
| PgnLexer.Lex | src/core/pgnparser.cpp:39-276 | `next_token` gives END exactly at the end of the input, and then changes nothing else; every other token it reads moves the position forward, staying inside the input |
| PgnLexer.DigitsRead | src/core/pgnparser.cpp:127-134 | the decimal rendering of `n >= 1` starts with a non-zero digit, the digit loop reads all of it, and its value is `n` |
| PgnLexer.LexReadsNumber | src/core/pgnparser.cpp:127-178 | a number followed by neither a digit, `.`, `w.` nor `b.` lexes as POSITIVE_NUMBER with that value, just past its digits |
| PgnLexer.LexReadsTurn | src/core/pgnparser.cpp:135-173 | a number followed by `.`, `w.` or `b.` is a turn serial with that number and colour (`.` means white); with turn checking it fails exactly when it is not the turn after the previous one |
| PgnLexer.LexTurnStep | src/core/pgnparser.cpp:127-178 | only a turn serial changes the turn; with turn checking every turn serial is the turn after the previous one |
| PgnLexer.LexZeroAlone | src/core/pgnparser.cpp:117-118 | `0` is a ZERO token of one character, whatever follows it |
| PgnLexer.LexCastleForms | src/core/pgnparser.cpp:75-100 | `O` lexes only as `O-O` or `O-O-O`, the latter exactly when five characters `O-O-O` are there; kingside castling ends right after `O-O` |
| PgnLexer.CastleAsWrittenSwallows | src/core/pgnparser.cpp:75-100 | as written, `O-O)` consumes the `)` with the castle, so the next token is END; the corrected lexer stops before the `)` and reads RIGHT_PAREN next |
| PgnLexer.MetadataReads | src/core/pgnparser.cpp:226-239 | `[` succeeds exactly when a `]` follows; the METADATA text is everything up to the first such `]`, which contains no `]`, and the position moves past it |
| PgnLexer.LexMetadataText | src/core/pgnparser.cpp:226-239 | the same for `next_token` at a `[` |
| PgnLexer.ClosesToCons | src/core/pgnparser.cpp:243-250 | the brace nesting after one more character is the nesting after the rest, started one level deeper or shallower by that character |
| PgnLexer.CloseBraceFinds | src/core/pgnparser.cpp:243-250 | the brace scan stops at position `k` exactly when `k` holds the `}` that first brings the nesting back to zero |
| PgnLexer.CommentReads | src/core/pgnparser.cpp:241-256 | a comment is read up to `k` exactly when `k` holds the `}` that closes the opening `{`, the braces between being nested |
| PgnLexer.CommentUnclosed | src/core/pgnparser.cpp:246-249 | when no `}` closes the opening `{`, the lexer fails with the "comment not closed" message and the rest of the input |
| PgnLexer.LexCommentNested | src/core/pgnparser.cpp:241-256 | the same for `next_token` at a `{` |
| PgnLexer.LexCommentUnclosed | src/core/pgnparser.cpp:246-249 | the same error for `next_token` at an unclosed `{` |
| PgnLexer.LexErrors | src/core/pgnparser.cpp:39-276 | an unknown character fails with the "unknown token" message; errors arise only there, at castling, `[`, `{` and checked turn serials |
| PgnHeaders.ScanFor | src/core/pgnparser.cpp:815-818 | `next_colon` stops at the first `:` from its start, or at the end, passing no `:` |
| PgnHeaders.FindSpace | src/core/pgnparser.cpp:879-880 | the key scan stops at the first white space, or at the end, passing none |
| PgnHeaders.LowerChar | src/core/pgnparser.cpp:895-896 | `tolower` in the C locale shifts `A`-`Z` by 32 and keeps every other character |
| PgnHeaders.Lower | src/core/pgnparser.cpp:895-896 | the key keeps its length and each character is lowered |
| PgnHeaders.LowerIdempotent | src/core/pgnparser.cpp:895-896 | lowering a lowered key changes nothing |
| PgnHeaders.ConversionError | src/core/pgnparser.cpp:839-853 | a line or time without a digit fails with the `parse_error` "Expect number after ':'", while one beyond `int` lets the `out_of_range` of `stoi` escape, since only `invalid_argument` is caught |
| PgnHeaders.StoiReadsBack | src/core/pgnparser.cpp:843-848 | `stoi` reads back any `int` printed in decimal |
| PgnHeaders.StoiBeyondInt | src/core/pgnparser.cpp:843-848 | a decimal number above `INT_MAX` is out of range for `stoi` |
| PgnHeaders.BoardStringRead | src/core/pgnparser.cpp:839-853 | once the line is scanned, a line that does not convert fails the whole board string with the error of its conversion, and one that does is within the text and leads to the time part |
| PgnHeaders.BoardStringLineOutOfRange | src/core/pgnparser.cpp:839-853 | `fen:n:0:w` with `n` above `INT_MAX` fails with the escaping `out_of_range`, not with a `parse_error` |
| PgnHeaders.AddMetadata | src/core/pgnparser.cpp:798-904 | text without `"` appends one board string and keeps the headers; text with `"` adds one header key and keeps the boards and the old keys; stored keys are all lower case |
| PgnHeaders.AddMetadataDuplicate | src/core/pgnparser.cpp:897-899 | a second header whose key lowers to the same key fails with the duplicate-key error |
| PgnHeaders.BoardScans | src/core/pgnparser.cpp:814-849 | in a string laid out as `fen:[sign]line:time:c` with colon-free parts, the colon scans stop at the ends of the FEN, the line and the time |
| PgnHeaders.BoardSign | src/core/pgnparser.cpp:825-838 | the character after the first colon selects the sign written: `+` POSITIVE, `-` NEGATIVE, anything else NIL |
| PgnHeaders.BoardFields | src/core/pgnparser.cpp:814-872 | once the scans and the two numbers are read, the board string gives the FEN, the sign, the line, the time and the colour |
| PgnHeaders.BoardTimeFields | src/core/pgnparser.cpp:844-872 | the time part, once its scan and number are known, gives the board with the colour of the last letter |
| PgnHeaders.BoardReads | src/core/pgnparser.cpp:814-872 | `fen:[sign]line:time:c` with colon-free parts whose numbers read as `line` and `time` parses to exactly that board |
| PgnHeaders.BoardStringRoundTrip | src/core/pgnparser.cpp:814-872 | every board with a colon-free FEN, an unambiguous sign and a line and time within `int` reads back from its printed board string |
| PgnHeaders.BoardTimeColour | src/core/pgnparser.cpp:844-872 | an accepted time-and-colour part ends in `w`, `W`, `b` or `B`, and is black exactly for `b` or `B` |
| PgnHeaders.BoardColourLetter | src/core/pgnparser.cpp:853-872 | the colour letter is accepted only as the last character, as `w`, `W`, `b` or `B`, and gives black exactly for `b` or `B` |
| PgnHeaders.BoardStringColour | src/core/pgnparser.cpp:853-871 | a board string is accepted only when it ends in `w`, `W`, `b` or `B`, and is black exactly for `b` or `B` |
| PgnHeaders.HeaderRoundTrip | src/core/pgnparser.cpp:874-899 | `key "value"` with a space-free key and a quote-free value reads back as the lowered key and the value |
| PgnHeaders.HasQuote | src/core/pgnparser.cpp:802-810 | the `saw_quote` loop reports exactly whether the text holds a `"` |
| PgnHeaders.NextColon | src/core/pgnparser.cpp:815-818 | the loop computes `ScanFor` for `:` |
| PgnHeaders.ParseBoardString | src/core/pgnparser.cpp:811-872 | the board-string branch computes the specification `BoardString`, its errors included |
| PgnHeaders.BoardTimeRead | src/core/pgnparser.cpp:844-853 | once the time is scanned, a time that does not convert fails with the error of its conversion, and one that does leads to the colour letter |
| PgnHeaders.ParseBoardTime | src/core/pgnparser.cpp:844-872 | the time-and-colour part computes the specification `BoardTime` |
| PgnHeaders.ParseBoardColour | src/core/pgnparser.cpp:853-872 | the colour switch and the length check compute the specification `BoardColour` |
| PgnHeaders.AddMetadataText | src/core/pgnparser.cpp:800-900 | the body of the metadata loop computes the specification `AddMetadata` |
| PgnHeaders.LowerInPlace | src/core/pgnparser.cpp:895-896 | the loop lowers the key in place, giving `Lower(key)` |
| PgnHeaders.ParseHeader | src/core/pgnparser.cpp:874-894 | the header branch computes the specification `HeaderString`, its errors included |
| PgnGrammar.LexDecreases | src/core/pgnparser.cpp:39-276 | reading a token never increases the count of tokens left, and reading past any token but END decreases it, so every parsing loop ends |
| PgnGrammar.CharValue | src/core/pgnparser.cpp:490-515 | storing a number into a `char` keeps it modulo 256 as a signed value, and keeps a value already in range |
| PgnGrammar.ReadRelativeBoard | src/core/pgnparser.cpp:300-370 | `parse_relative_board`: failing without `$(` restores the buffer; success consumes tokens |
| PgnGrammar.RelativeLine | src/core/pgnparser.cpp:310-337 | after `L` a sign or `=` is required; a successful read gives a board and consumes tokens |
| PgnGrammar.RelativeLineNumber | src/core/pgnparser.cpp:326-337 | a sign takes the line number after it, `=` takes none; a successful read gives a board and consumes tokens |
| PgnGrammar.RelativeTime | src/core/pgnparser.cpp:338-364 | the `T` part as evidently intended: a sign or `=` is required, `=` takes no number and a sign needs one; a successful read gives a board and consumes tokens |
| PgnGrammar.RelativeTimeAsWritten | src/core/pgnparser.cpp:338-364 | the `T` part as written: the sign of the `L` part survives into a `T=`, and the number checks run only when a number follows |
| PgnGrammar.TimeEqualAsWritten | src/core/pgnparser.cpp:342-357 | as written, `T=` followed by a number gives the turn difference of the `L` part's sign times that number |
| PgnGrammar.TimeSignAsWritten | src/core/pgnparser.cpp:349-361 | as written, `T` and a sign with no number after it is accepted with no turn difference |
| PgnGrammar.TimeEqualKeepsLineSign | src/core/pgnparser.cpp:338-361 | `$(+1T=5)` is read as written with turn difference `+5` |
| PgnGrammar.TimeSignWithoutNumber | src/core/pgnparser.cpp:338-364 | `$(T+)` is read as written with neither difference |
| PgnGrammar.TimeEqualTakesNoNumber | src/core/pgnparser.cpp:356-358 | in the corrected `T` part, a number after `=` is an error |
| PgnGrammar.TimeSignNeedsNumber | src/core/pgnparser.cpp:359-360 | in the corrected `T` part, a sign not followed by a number is an error |
| PgnGrammar.LexSingle | src/core/pgnparser.cpp:50-115 | a character of a one-character token lexes as that token and moves one place on |
| PgnGrammar.RelativeClose | src/core/pgnparser.cpp:365-369 | the closing `)` is required, and the board read is exactly the line and turn differences gathered |
| PgnGrammar.ReadAbsoluteBoard | src/core/pgnparser.cpp:382-451 | `parse_absolute_board`: a failure restores the buffer; success consumes tokens |
| PgnGrammar.AbsoluteTime | src/core/pgnparser.cpp:429-446 | the `T` part needs a number or zero; without a line or a time the read fails; the board keeps the sign and line read |
| PgnGrammar.AbsoluteClose | src/core/pgnparser.cpp:447-450 | without `)` the read fails and restores the buffer; with it the board is exactly the sign, line and time read |
| PgnGrammar.ReadOrigin | src/core/pgnparser.cpp:478-492 | the optional piece, file and rank; reading nothing leaves the buffer as it was |
| PgnGrammar.ReadPromotion | src/core/pgnparser.cpp:518-525 | no `=` reads nothing; `=` must be followed by a piece, which is the promotion |
| PgnGrammar.SkipOptional | src/core/pgnparser.cpp:526-529 | an optional token: any other token is left in place, the token itself is consumed |
| PgnGrammar.SkipSign | src/core/pgnparser.cpp:551-552 | an optional `+` or `-`: anything else is left in place |
| PgnGrammar.SkipCheck | src/core/pgnparser.cpp:526-527 | an optional `+`, `*` or `#` never moves the buffer back |
| PgnGrammar.SkipJump | src/core/pgnparser.cpp:611-617 | an optional `>` or `>>`: anything else is left in place |
| PgnGrammar.ReadPhysicalMove | src/core/pgnparser.cpp:458-531 | `parse_physical_move`: a failure restores the buffer; success consumes tokens |
| PgnGrammar.PhysicalShort | src/core/pgnparser.cpp:493-502 | a lone file and rank is the destination unless a jump or a board follows, when the read fails |
| PgnGrammar.PhysicalLong | src/core/pgnparser.cpp:503-517 | an optional `x`, then a file and a rank are required, else the read fails and restores the buffer |
| PgnGrammar.PhysicalSuffix | src/core/pgnparser.cpp:518-530 | promotion, check and evaluation symbols after the destination; a successful read gives a move |
| PgnGrammar.ReadTimelineComment | src/core/pgnparser.cpp:537-572 | `parse_timeline_comment`: a failure restores the buffer; success consumes tokens |
| PgnGrammar.TimelineLine | src/core/pgnparser.cpp:547-556 | `(>L`, an optional sign, then a line number or zero is required |
| PgnGrammar.TimelinePresent | src/core/pgnparser.cpp:557-564 | `(~T` then a number or zero is required |
| PgnGrammar.TimelineClose | src/core/pgnparser.cpp:568-571 | the closing `)` is required |
| PgnGrammar.ReadTimelineComments | src/core/pgnparser.cpp:667-668 | the loop over timeline comments never moves the buffer back |
| PgnGrammar.ReadSuperphysicalMove | src/core/pgnparser.cpp:580-670 | `parse_superphysical_move`: a failure restores the buffer; success consumes tokens |
| PgnGrammar.ReadDestination | src/core/pgnparser.cpp:623-642 | no board after a jump straight to a file, else an absolute or relative board; after a jump one is required; failing restores the buffer |
| PgnGrammar.SuperphysicalTail | src/core/pgnparser.cpp:645-669 | once the destination board is read, a file and a rank are required, then the optional symbols and timeline comments |
| PgnGrammar.ReadMove | src/core/pgnparser.cpp:672-685 | a physical move if one parses, else a superphysical move; a failure restores the buffer |
| PgnGrammar.ReadComments | src/core/pgnparser.cpp:692-703 | skips white space and comments, appending the comment texts in order; stops at the first other token |
| PgnGrammar.ReadCommentsAppend | src/core/pgnparser.cpp:692-703 | the comments collected are those already held followed by the comments read, whatever was held |
| PgnGrammar.ReadCommentsStep | src/core/pgnparser.cpp:696-700 | one step over a comment token records its text and moves on |
| PgnGrammar.ReadActions | src/core/pgnparser.cpp:708-738 | `parse_actions`: no turn serial reads nothing; actions hold at least one move; a failure restores the buffer |
| PgnGrammar.MoreMoves | src/core/pgnparser.cpp:728-737 | the loop over further moves keeps the moves read so far as a prefix and never moves the buffer back |
| PgnGrammar.ReadGameTree | src/core/pgnparser.cpp:743-779 | `parse_gametree`: a failure restores the buffer, and success never moves it back |
| PgnGrammar.ReadBranches | src/core/pgnparser.cpp:752-769 | the loop over the variations keeps those read so far as a prefix |
| PgnGrammar.ReadVariation | src/core/pgnparser.cpp:753-768 | one `(` actions tree `)` consumes tokens; a failure restores the buffer |
| PgnGrammar.CloseVariation | src/core/pgnparser.cpp:759-767 | the variation needs its `)`, which is consumed, and is kept as read |
| PgnGrammar.MainLine | src/core/pgnparser.cpp:770-778 | without a turn serial the tree is the variations read; otherwise the main line is appended after them |
| PgnGrammar.ReadMetadata | src/core/pgnparser.cpp:798-904 | the metadata loop stops at the first token that is not metadata; boards and header keys only grow, and earlier comments are kept |
| PgnGrammar.ReadGame | src/core/pgnparser.cpp:790-910 | `parse_game`: a failure restores the buffer; success never moves it back |
| PgnGrammar.MetadataAtEnd | src/core/pgnparser.cpp:798-904 | at the end of the input the metadata loop reads nothing: no headers, no boards, no comments, and the position is kept |
| PgnGrammar.GameAtEnd | src/core/pgnparser.cpp:790-910 | at the end of the input the game is empty: no headers, no boards, no variations, no comments |
| PgnGrammar.EmptyGame | src/core/pgnparser.cpp:790-910 | the empty text parses to the empty game |
| PgnParser.ScanDigits | src/core/pgnparser.cpp:128-134 | the digit loop stops where the run of digits ends and accumulates its decimal value |
| PgnParser.ScanSpaces | src/core/pgnparser.cpp:266-267 | the whitespace loop stops where the run of white space ends |
| PgnParser.ScanEval | src/core/pgnparser.cpp:196-207 | the evaluation loop stops where the run of `?` and `!` ends |
| PgnParser.ScanBracket | src/core/pgnparser.cpp:228-234 | the `[` loop finds the first `]` after the `[`, or reports that the input ends first |
| PgnParser.ScanBrace | src/core/pgnparser.cpp:243-250 | the `{` loop finds the `}` where the nesting level returns to zero, or reports that the input ends first |
| PgnParser.NumberToken | src/core/pgnparser.cpp:135-178 | after the digits, the turn-serial or plain-number branch gives exactly the token of the specification |
| PgnParser.TurnToken | src/core/pgnparser.cpp:140-173 | a turn serial, failing with the non-consecutive-turn error when checked and not the next turn |
| PgnParser.MetadataToken | src/core/pgnparser.cpp:226-239 | the `[` branch gives the text up to `]`, or the missing-`]` error |
| PgnParser.CommentToken | src/core/pgnparser.cpp:241-256 | the `{` branch gives the text up to the matching `}`, or the unclosed-comment error |
| PgnParser.Scan | src/core/pgnparser.cpp:39-276 | `next_token` on a buffer computes exactly the specification `Lex`, errors included |
| PgnParser.ScanOne | src/core/pgnparser.cpp:50-225 | the one- and two-character branches agree with `Lex` |
| PgnParser.ScanRun | src/core/pgnparser.cpp:75-207 | the castling, number and evaluation branches agree with `Lex` |
| PgnParser.ScanBlock | src/core/pgnparser.cpp:226-275 | the bracket, brace and white-space branches agree with `Lex` |
| PgnParser.Parser.Open | src/core/pgnparser.cpp:30-35 | the constructor reads the first token from the turn before the start turn, failing with `next_token`'s error |
| PgnParser.Parser.NextToken | src/core/pgnparser.cpp:39-276 | the buffer moves to the next token exactly as `Lex` says, or the error is reported |
| PgnParser.Parser.ParseComments | src/core/pgnparser.cpp:692-703 | returns the comments `ReadComments` collects and leaves the buffer where it stops |
| PgnParser.Parser.ParseMove | src/core/pgnparser.cpp:672-685 | result and buffer are those of `ReadMove` |
| PgnParser.Parser.ParseActions | src/core/pgnparser.cpp:708-738 | result and buffer are those of `ReadActions` |
| PgnParser.Parser.ParseMoreMoves | src/core/pgnparser.cpp:728-737 | result and buffer are those of `MoreMoves` |
| PgnParser.Parser.ParseGametree | src/core/pgnparser.cpp:743-779 | result and buffer are those of `ReadGameTree` |
| PgnParser.Parser.ParseVariation | src/core/pgnparser.cpp:752-769 | one variation: result and buffer are those of `ReadVariation` |
| PgnParser.Parser.CloseBranch | src/core/pgnparser.cpp:759-768 | the `)` of a variation with the turn reset: as `CloseVariation` |
| PgnParser.Parser.ParseMainLine | src/core/pgnparser.cpp:770-778 | the main line: as `MainLine` |
| PgnParser.Parser.ParseMetadata | src/core/pgnparser.cpp:798-905 | the metadata loop returns the headers, boards and comments of `ReadMetadata` and leaves the buffer where it stops |
| PgnParser.Parser.ParseGame | src/core/pgnparser.cpp:790-910 | result and buffer are those of `ReadGame` |
| PgnParser.LoadGame | src/core/pgnparser.cpp:790-910 | constructing a parser and calling `parse_game` gives exactly the specification `GameOf` |
| PgnMatch.MatchOpt | src/core/pgnparser.cpp:9-18 | an absent part matches anything; a present one matches exactly an equal part |
| PgnMatch.MatchAbsolute | src/core/pgnparser.cpp:914-919 | a matching pattern with a line agrees on sign and line, one with a time agrees on time; a pattern with neither matches every board |
| PgnMatch.MatchRelative | src/core/pgnparser.cpp:921-926 | a matching pattern agrees on each difference it gives; the empty pattern matches every board |
| PgnMatch.MatchPhysical | src/core/pgnparser.cpp:928-962 | a castling pattern matches exactly a castle of the same side or the king's two-square move from `e` written out, on an agreeing board; any other matching pattern agrees on destination, piece and promotion, and a capture pattern needs a capture |
| PgnMatch.MatchDestination | src/core/pgnparser.cpp:967-975 | no destination board matches anything; otherwise the kinds must agree |
| PgnMatch.MatchSuperphysical | src/core/pgnparser.cpp:964-999 | a match agrees on the boards, the destination square, a given jump kind, and needs a capture when the pattern has one |
| PgnMatch.MatchMove | src/core/pgnparser.cpp:1001-1009 | moves of different kinds never match; same kinds match as their kind's matcher says |
| PgnMatch.MatchMoveReflexive | src/core/pgnparser.cpp:1001-1009 | every move matches itself |
| PgnMatch.MatchAbsoluteTransitive | src/core/pgnparser.cpp:914-919 | a pattern matching a second pattern matches every board the second matches |
| PgnMatch.MatchRelativeTransitive | src/core/pgnparser.cpp:921-926 | the same for relative boards |
| PgnMatch.MatchDestinationTransitive | src/core/pgnparser.cpp:967-975 | the same for destination boards |
| PgnMatch.MatchSuperphysicalTransitive | src/core/pgnparser.cpp:964-999 | the same for superphysical moves |
| PgnMatch.KingsideMatchesKingMove | src/core/pgnparser.cpp:936-939 | `O-O` without a board matches the king's move e1g1 or e8g8 |
| PgnMatch.QueensideMatchesKingMove | src/core/pgnparser.cpp:940-943 | `O-O-O` without a board matches the king's move e1c1 or e8c8 |

## Left out

Corrected behaviour that the model uses in place of the source as written (see "## Findings"):

- Game.Game.Submit: the new child gets the moves of the cached entries up to the shown one. game.cpp:260-266 as written also takes the undone entries after it. Game.SubmittedMovesAsWritten models that, and Game.SubmitAsWrittenTakesUndone shows the difference.
- Game.CollectMoves: collects the moves up to the shown entry only, for the same reason as Game.Game.Submit.
- Bitboard.NortheastSquares: states the corrected `shift_northeast`, which clears the h-file. bitboard.h:62-65 clears the a-file (Bitboard.NortheastAsWrittenWraps).
- Bitboard.SoutheastSquares: states the corrected `shift_southeast`, which clears the h-file. bitboard.h:70-73 clears the a-file (Bitboard.SoutheastAsWrittenWraps).
- Bitboard.WhitePawnAttackSquares: built from the corrected north-east shift. As written, a pawn on the a- or h-file gets a different mask (Bitboard.WhitePawnAttackAsWrittenWrong).
- Bitboard.BlackPawnAttackSquares: built from the corrected south-east shift. As written, pawns on the a- or h-file differ.
- Bitboard.KingAttackSquares: built from the corrected diagonal shifts. As written, a king on a1 attacks only a2 and b1, while the model's table also holds b2.
- Bitboard.KnightAttackSquares: built from the corrected diagonal shifts. As written, knights near the a- and h-files differ.
- Bitboard.RookCopyMask: takes the square `pos` and the reach `n` as separate arguments, the entry that `rook_copy_mask(pos, n)` looks up at `n << BOARD_BITS | pos` (bitboard.inl:22-25). The table generator's decode of its key (bitboard.cpp:63, `pos = key & ((1 << BOARD_LENGTH) - 1)`, `n = key >> BOARD_BITS`) is not modelled: the header defining `BOARD_BITS` and `BOARD_LENGTH` is not part of this model. With the values the shifts and the table size imply (6 and 8), that mask keeps the low two bits of `n` inside `pos`, so for `n % 4 != 0` the generator's `bitboard_t(1) << pos` shifts by 64 or more, which is undefined behaviour; the model states the mask for the intended `pos = key % 64`.
- Bitboard.BishopCopyMask: walks the eastward diagonals with the corrected shifts. As written, those walks wrap or stop at the a-file. It also takes `pos` and `n` directly: the key decode of bitboard.cpp:79 and its over-wide shift for `n % 4 != 0` are not modelled, as for Bitboard.RookCopyMask.
- Bitboard.QueenCopyMask: joins the rook mask with the corrected bishop mask, for `pos` and `n` given directly. It inherits the unmodelled key decode and over-wide shift of Bitboard.RookCopyMask and Bitboard.BishopCopyMask.
- PgnLexer.Lex: reads castling with the corrected rule, which consumes exactly "O-O" or "O-O-O". pgnparser.cpp:75-100 as written also consumes the character after a kingside "O-O" (PgnLexer.CastleAsWrittenSwallows).
- PgnGrammar.ReadRelativeBoard: reads the `T` part like the `L` part. As written (pgnparser.cpp:338-364), the sign of the `L` part survives a `T=` (PgnGrammar.TimeEqualKeepsLineSign), and a `T` sign without a number is accepted (PgnGrammar.TimeSignWithoutNumber).
- PgnParser.LoadGame: parses with the corrected lexer and relative-board reader above.
- PgnLexer.LexReadsNumber: the value of a digit run is unbounded. pgnparser.cpp:128-133 accumulates it in an `int` as `number*10 + digit`, whose signed overflow on a run beyond `INT_MAX` is undefined behaviour and is not modelled.
- PgnLexer.LexReadsTurn: the turn number is the same unbounded digit value, so the `int` overflow of a turn serial beyond `INT_MAX` is not modelled either.
- Pretty.PrettyMoveImpl: prints the line and time differences under the `L` and `T` labels, and `+` as the check symbol. state.inl:63-67 prints the file and rank differences there (Pretty.RelativeAsWrittenLosesJump). state.inl:9 yields the character 1 (Pretty.CheckSymbolAsWrittenIsOne).
- Pretty.PrettyMove: uses Pretty.PrettyMoveImpl's corrected text.
- OldMultiverse.InsertEffect: compares the column with a signed test, so a negative time is refused with the intended error. multiverse.cpp:155 compares unsigned. There a negative column throws `length_error`, or empties the row and writes before it (OldMultiverse.NegativeTimeCheckUnreachable, OldMultiverse.BlackAtTurnMinusOneClearsRow).
- OldMultiverse.Multiverse.InsertBoard: the corrected insertion of OldMultiverse.InsertEffect.
- OldMultiverse.IsActiveMeansBalanced: states the intended `is_active`, a test against the active range. multiverse.cpp:98-103 tests against the present turn number (OldMultiverse.IsActiveAsWrittenDisagrees).
- FenRows.ParseFen: reads `boardLengthY` rows of `boardLengthX` cells, as draw.js reads the result. parse.js:5-9 and 34-37 swap the two (FenRows.ParseFenAsWritten).
- Viewport.IsCloseToProperties: states the closeness test with a guard for a target at scale 0. canvas.js:52-56 divides by that scale, so nothing is ever close to it (Viewport.IsCloseToAsWrittenNotReflexive).

Preconditions and abstractions:

- State.ApplySpec: a move whose source board is not a timeline's last board, or that arrives at a negative time, yields `None` and changes nothing. In the source this is only a debug `assert` (state.cpp:283). A release build goes ahead, and `insert_board` throws after the first board has been appended. That partial update is not modelled.
- Layout.ChessBoardCanvas.SetData: requires a given `size` to be at least 1 by 1, which the layout invariant needs. draw.js:68-76 accepts a zero size. A missing size is modelled.
- Selection.Page.OnData: passes its data to Layout.ChessBoardCanvas.SetData and so has the same size requirement.
- PgnMatch.MatchPhysical: requires the candidate to name a board when the pattern does, because pgnparser.cpp dereferences the candidate's board then. The undefined behaviour otherwise is not modelled.
- PgnMatch.MatchSuperphysical: the same requirement for the departure board.
- Hypercuboid.Search: requires that every split shrinks the search spaces, a hypothesis needed for termination. The split itself (hypercuboid.cpp:349-366) and `take_point`, `jump_order_consistent`, `test_present` and `find_checks` are parameters of the model. The `HC`, `slice` and `search_space` geometry is not part of this model.
- Hypercuboid.FindProblem: the three problem finders are parameters; only their order and the first-problem rule are modelled.
- GameTree.GetState: a child whose parent's state cannot take the child's action yields an `Err` with a message of the model's own. At gametree.h:48 the source dereferences an empty optional, which is undefined behaviour.
- GameTree.Clone: the tree is a value, so the deep copy is the identity. Ownership through `unique_ptr` and the parent back-links that `clone` re-links are not modelled.
- Bot.SampleActions: states that the result is the best actions in descending priority. The order among equal priorities, which `std::sort` leaves open, is not stated.
- Bot.TranspositionTable.Store: sequential semantics only. The atomic memory orders and concurrent access of the table are not modelled.
- OldMultiverse.Build: takes the blocks already matched and requires at least one. The comment stripping and the block and board patterns of multiverse.cpp:23-53 are not modelled, nor is the skipping of a block that holds no board; on empty input the source reads `boards[0]`, which is undefined behaviour The line and time of a block arrive as integers, so the `out_of_range` that `std::stoi` at multiverse.cpp:37-38 throws beyond `int` is not modelled either.
- Viewport.Camera.LerpTowards: uses the corrected closeness test, so it leaves the camera unchanged once it is close to a target of scale 0 (reachable within the zoom range -5..7); canvas.js:52-56 never calls a camera close to such a target, so the source's `lerpTowards` keeps stepping (Viewport.AnimationNeverStopsAtScaleZero).
- Viewport.InfiniteScrollableCanvas.OnAnimationFrame: returns false once the camera has reached a target of scale 0, through the corrected closeness test; the source's `_onAnimationFrame` keeps returning true there (Viewport.AnimationNeverStopsAtScaleZero).
- Streams.FilterKeepsOrder: the list-valued filter is defined for finite streams. On an endless stream the source's filter is lazy and diverges when only finitely many elements pass. The model states the passing elements among the first `m` (Streams.FilterFirstAt, Streams.TakeFilterEndless).
- Streams.Node.PtrCdr: a thunk is a pure function, and "evaluated at most once" is modelled by a ghost count of evaluations. Side effects of a thunk are not modelled.
- Viewport.AnimationManager.Animate: takes the frame callback as a pure `real -> bool`. State the callback changes, and the browser's `requestAnimationFrame` scheduling, are not modelled.
- Viewport.ScreenWorldInverse: the zoom level is a caller-supplied positive real. `Math.pow(2, scale)` and floating-point rounding are not modelled; world coordinates are reals.
- Color.ResolveNamed: CSS-variable lookup and colour parsing (`getComputedStyle`, `_parseColorToHsla`, the RGB to HSL conversion) are function parameters.

Integer widths:

- Coordinates.LToU: integers are unbounded. C++ `int` overflow of `2*l` and `-2*l-1`, and the JavaScript 32-bit `<<` and `|` of `t<<1|c`, are not modelled.
- Action.Parse: reads the line and time numbers with any number of digits. The `std::stoi` calls of action.cpp:17-31 throw `out_of_range` for a value beyond `int`; the model reports no such error. (State.Stoi, used for the size header and for the line and time of a `[fen:l:t:c]` board string, does model `out_of_range`.)

Parts of the sources outside this model:

- Canvas drawing (`fillRect`, `drawImage`, gradients, arrows, status text), asset loading in piece.js, and the worker and network transport are browser I/O.
- Move generation (`gen_*` in multiverse_base.cpp and multiverse.cpp), the board edits of `apply_move`, `find_checks`, `get_move_info` and `get_mate_type` depend on the board class, which is not part of this model.
- The bot's `negamax`, search threads and wall-clock limits, the floating-point evaluator and the Zobrist hashing are not modelled.
- The `std::regex` of `full_move(std::string)` is written out as a hand grammar (Action.Parse).
- The language bindings, the command-line driver and the tests are not modelled.

## Findings

| source | as written | input that shows it | evidently intended | confidence | as-written member | corrected member |
|---|---|---|---|---|---|---|
| src/core/bitboard.h:62-73 | `shift_northeast` and `shift_southeast` clear the a-file before shifting east | a pawn on h2: north-east it lands on a4; from a2 the mark is dropped | clear the h-file, as `shift_east` does, so no mark wraps across the board edge | high, not executed | Bitboard.NortheastAsWrittenWraps, Bitboard.SoutheastAsWrittenWraps, Bitboard.WhitePawnAttackAsWrittenWrong | Bitboard.NortheastSquares, Bitboard.SoutheastSquares, Bitboard.WhitePawnAttackSquares |
| src/core/multiverse.cpp:155-162 | `v >= timeline.size()` compares a signed column with an unsigned size | black at turn -1 (`v = -1`): the row is resized to 0, then slot -1 is written; the "Negative time" error is unreachable | compare as signed integers and throw for a negative time | high, not executed | OldMultiverse.NegativeTimeCheckUnreachable, OldMultiverse.BlackAtTurnMinusOneClearsRow | OldMultiverse.InsertEffect |
| src/core/multiverse.cpp:98-103 | `is_active` bounds the line by component 0 of `get_present()`, the present turn number | lines 0..3 with the present at turn 10: line 3 is called active, although only lines 0 and 1 are | bound the line by the number of active lines, as `get_present` does | medium, not executed | OldMultiverse.IsActiveAsWrittenDisagrees | OldMultiverse.IsActiveMeansBalanced |
| ui/scripts/parse.js:5-37 | `parse_FEN` expects `boardLengthX` rows of `boardLengthY` cells, while draw.js:322-324 reads `boardLengthY` rows of `boardLengthX` | a board 2 files wide and 3 ranks high: "11/11/11" is refused and "111/111" is accepted | `boardLengthY` rows (ranks) of `boardLengthX` cells (files) | medium, not executed | FenRows.ParseFenAsWritten, FenRows.ParseFenAsWrittenWrongShape | FenRows.ParseFen, FenRows.ParseFenDrawable |
| ui/scripts/canvas.js:52-56 | `isCloseTo` compares scales by their ratio `this.scale / other.scale` | a target at scale 0: no camera is close to it, not even the target itself, so the animation never stops | the same ratio test, with a target at scale 0 close exactly to cameras at scale 0 | medium, not executed | Viewport.IsCloseToAsWrittenNotReflexive, Viewport.AnimationNeverStopsAtScaleZero | Viewport.IsCloseToProperties |
| src/core/state.inl:9 | `check_symbol = checking && '+'` is a `bool`, stored as the char 1 | any checking move printed with SHOW_MATE ends in the char 1, not `+` | `+` for a checking move | high, not executed | Pretty.CheckSymbolAsWrittenIsOne | Pretty.CheckSuffix |
| src/core/state.inl:63-67 | the relative target prints the file and rank differences under the `L` and `T` labels | jumps from line 0 to line 1 and to line -1 on the same square both print `$(L=T=)` | the line and time differences | medium, not executed | Pretty.RelativeAsWrittenLosesJump | Pretty.RelativeDetermines |
| src/core/game.cpp:259-266 | `submit` collects the moves of every cached entry, including undone ones after `now` | make two moves, undo one, submit: the child gets both moves, and its state is not the shown one | the moves up to the shown entry | medium, not executed | Game.SubmitAsWrittenTakesUndone | Game.SubmittedMovesReachShown |
| src/core/pgnparser.cpp:75-100 | after "O-O" the lexer advances once more, whatever the next character is | "O-O)": the `)` is swallowed and the next token is END | consume only "O-O" or "O-O-O" | medium, not executed | PgnLexer.CastleAsWrittenSwallows | PgnLexer.LexCastleForms |
| src/core/pgnparser.cpp:338-364 | the `T` part keeps the sign of the `L` part, and checks for a number only when one follows | "$(+1T=5)" gives a time difference of +5; "$(T+)" is accepted with neither difference | read the `T` part like the `L` part: `=` takes no number, and a sign needs one | medium, not executed | PgnGrammar.TimeEqualKeepsLineSign, PgnGrammar.TimeSignWithoutNumber | PgnGrammar.TimeEqualTakesNoNumber, PgnGrammar.TimeSignNeedsNumber |
