# Backgammon board core in Dafny

This project models the board core of the Go backgammon move generator and
proves properties about it. The core is the slot layout, applying moves and
move rolls, comparing rolls and lists of rolls, the initial layout built by
`NewBoard`, and the static evaluator used by the search.

Files and modules:

- `board_consts.dfy`, module `BoardConsts`: colours, game states and the
  26-slot layout. Slots 0..23 are the playable points, slot 24 is the bar of the
  black checkers and slot 25 the bar of the white ones.
- `board.dfy`, module `Boards`: checkers, points and boards, modelled as values.
  Copying a board is value copy, and board equality is structural. It also has
  the loop of the older `NewBoard`, which fills a new 24-point array.
- `move.dfy`, module `Moves`: `MakeMove` copies the board into a new array,
  updates that array in place, and is proved equal to the step-by-step function
  `ApplyMove`. A Go panic, whether explicit or an index out of range, is a
  `Panicked` result. `MakeMoveRoll` is the loop over a roll, proved equal to the
  fold `ApplyRoll`.
- `move_compare.dfy`, module `MoveCompare`: `isEqual` sorts both rolls in place.
  On slices of at most six elements, `sort.Slice` is the standard library's
  plain insertion sort in every Go release (from Go 1.19 this holds up to
  twelve elements; earlier releases first run a gap-6 pass on 7 to 12).
  `areMoveRollListsEqual` is a greedy one-to-one matching over a
  `foundMatch` flag list.
- `evaluation.dfy`, module `Evaluation`: the counting loops of the evaluator,
  each proved against a specification function. It also proves bounds and the
  mirror symmetry: point `i` becomes point `23 - i`, the bars swap, and the
  colours swap.

Where the comments of the code and the code disagree, the model follows the
code:

- `board_consts.go` line 21 says slot 24 holds the white checkers that were hit.
  `MakeMove` (move.go:33-37) puts hit black checkers on slot 24
  (`BLACK_PIECES_BAR_POINT_INDEX`) and all others on slot 25.
- `board.go` belongs to an older snapshot of the package, with colours white 1,
  black 2 and "no colour" 3. Only `NewBoard` and its lemmas use those values,
  as `LegacyWhite`, `LegacyBlack` and `NoColor`. Everything else uses
  `board_consts.go`: white 0, black 1.
- The `NewBoard` loop does not build the usual mirrored start. A later
  iteration can clear a black stack written earlier. The final board has black
  only on points 11 and 0, and each black stack is tagged with the index of the
  white point it mirrors.

## Model

| member | source | states |
|---|---|---|
| BoardConsts.Opponent | pkg/board/board_consts.go:7-10 | the other side: white and black map to each other, in both directions |
| BoardConsts.OpponentInvolution | pkg/board/board_consts.go:7-10 | flipping the side twice gives it back, and no colour is its own opponent |
| BoardConsts.GameStateName | pkg/board/board_consts.go:12-17 | every game state has a non-empty name |
| BoardConsts.BarIndex | pkg/board/board_consts.go:23-26 | black's bar is slot 24, every other colour's is 25; both lie outside the playable points and inside the board |
| BoardConsts.SlotLayout | pkg/board/board_consts.go:23-28 | 26 slots = 24 points + 2 distinct bars outside the playable range; 15 checkers per side |
| Boards.NewChecker | pkg/board/board.go:27-29 | the checker carries the given colour |
| Boards.NewPoint | pkg/board/board.go:37-39 | the point carries the given count, index and checker |
| Boards.NewBoard | pkg/board/board.go:47-65 | 24 points, each the last value the loop writes to it (`InitialPoint`); normal play, no colour to move |
| Boards.InitialWhiteStacks | pkg/board/board.go:50-58 | white starts with 5, 3, 5 and 2 checkers on points 5, 7, 12 and 23, fifteen in all |
| Boards.InitialBlackStacks | pkg/board/board.go:56-63 | black keeps only 5 on point 11 and 2 on point 0, seven in all; the stacks written at 18 and 16 are cleared later |
| Boards.InitialEmptyPoints | pkg/board/board.go:60-62 | every other point ends empty with no colour |
| Boards.InitialLayoutNotMirrored | pkg/board/board.go:56-63 | the final layout is not symmetric under `q -> 23 - q` |
| Moves.MakeMove | pkg/board/move.go:21-51 | the in-place update of the copy gives exactly `ApplyMove`, panics included; the input board is not changed |
| Moves.MakeMovePanics | pkg/board/move.go:22-24 | on a full board a move panics exactly for a bad `From`, a wrong colour, a travelling move off the board, or a bear-off to the wrong index |
| Moves.PlainMoveEffect | pkg/board/move.go:27-29 | a non-hitting move takes one checker off `From` and adds one of the mover's colour on `To`; nothing else changes |
| Moves.HitEffect | pkg/board/move.go:30-39 | a move onto a lone opposing checker leaves one mover's checker on `To` and adds one to the hit colour's bar; `To` keeps its index and nothing else changes |
| Moves.BearOffEffect | pkg/board/move.go:44-49 | a bear-off to the bear-off index only takes one checker off `From` |
| Moves.OtherMoveTypeEffect | pkg/board/move.go:26-50 | a move of any other type returns an unchanged copy |
| Moves.TravelConserves | pkg/board/move.go:27-43 | a legal ordinary move or bar entry keeps both colours' checker totals (points plus bar) |
| Moves.BearOffRemovesOne | pkg/board/move.go:44-49 | a bear-off from a playable point lowers the mover's total by one and leaves the opponent's alone |
| Moves.ColorSumUpdate | pkg/board/move.go:29-42 | replacing one point changes a colour's sum by the difference of that point's shares |
| Moves.MakeMoveRoll | pkg/board/move.go:55-61 | the loop gives the left fold of `MakeMove` over the roll, stopping at the first panic |
| Moves.EmptyRoll | pkg/board/move.go:55-61 | the empty roll returns the board |
| Moves.ApplyRollAppend | pkg/board/move.go:55-61 | applying a concatenated roll is applying the first part, then the second |
| Moves.ApplyRollSnoc | pkg/board/move.go:57-59 | a roll with a move appended applies that move to the roll's result |
| Moves.ApplyMoveKeepsShape | pkg/board/move.go:21-51 | a move keeps the turn, the game state and the number of slots |
| Moves.ApplyRollKeepsShape | pkg/board/move.go:55-61 | so does a roll: the turn passes only outside `MakeMoveRoll` |
| MoveCompare.LessAsWritten | pkg/board/move.go:72-85 | moves with different (`From`, `To`) compare lexicographically; with equal `From` and `To` the answer is `Type == Type`, so a move is "less" than an equal one and neither of two moves of different types is less |
| MoveCompare.SortMoves | pkg/board/move.go:72-86 | the in-place insertion sort leaves the array equal to `GoSort` of its old contents |
| MoveCompare.InsertAt | pkg/board/move.go:72-86 | one step of the sort moves the element at `i` into the sorted prefix, leaving the rest alone |
| MoveCompare.IsEqual | pkg/board/move.go:67-112 | true iff the lengths match and the sorted rolls are equal; both arrays are left sorted, or unchanged on a length mismatch; correct when both arguments are one array (two Dafny arrays are either the same or disjoint, so Go slices that partly share storage are not covered) |
| MoveCompare.InsertionSortPermutes | pkg/board/move.go:72-102 | sorting permutes a roll, for any comparator |
| MoveCompare.SortPrefixKeySorted | pkg/board/move.go:72-83 | the sorted roll is ordered by (`From`, `To`) |
| MoveCompare.GoSortIdempotent | pkg/board/move.go:72-86 | sorting a sorted roll changes nothing, so the in-place sort done by one `isEqual` call does not change a later answer |
| MoveCompare.RollsEqualAfterSorting | pkg/board/move.go:67-112 | `isEqual` gives the same answer on already-sorted rolls |
| MoveCompare.RollsEqualLengths | pkg/board/move.go:68-70 | rolls of different lengths are never equal |
| MoveCompare.RollsEqualSound | pkg/board/move.go:67-112 | an answer of true means the rolls are permutations of each other |
| MoveCompare.RollsEqualIncomplete | pkg/board/move.go:85 | the converse fails: two moves with the same `From` and `To` but different types, in the two orders, compare unequal |
| MoveCompare.RollsEqualIntendedIsPermutation | pkg/board/move.go:72-102 | with a strict lexicographic comparator, sorted-equality holds exactly for permutations |
| MoveCompare.AreMoveRollListsEqual | pkg/board/move.go:114-145 | true iff the lists have the same length and the same multiset of sorted rolls: the greedy matching never misses a complete matching |
| MoveCompare.NoneFound | pkg/board/move.go:119-122 | the first loop builds one false flag per roll of `curr` |
| MoveCompare.MatchOne | pkg/board/move.go:125-132 | the inner loop sets exactly one flag, that of the first free roll with the same sorted form, or reports that no free roll has it and changes nothing |
| MoveCompare.AllFound | pkg/board/move.go:138-144 | the final loop answers whether every flag is set |
| Evaluation.Min | pkg/ai/evaluation.go:192-197 | the result is one of the arguments and at most both |
| Evaluation.Max | pkg/ai/evaluation.go:199-204 | the result is one of the arguments and at least both |
| Evaluation.MinReal | pkg/ai/evaluation.go:213-218 | the same for the floating-point variant, on reals |
| Evaluation.MaxReal | pkg/ai/evaluation.go:206-211 | the same for the floating-point variant, on reals |
| Evaluation.MinLeMax | pkg/ai/evaluation.go:192-204 | `min(a, b) <= max(a, b)`, and together they are `a` and `b` |
| Evaluation.IsSafe | pkg/ai/evaluation.go:188-190 | a point is safe exactly when it holds two or more of the mover's checkers |
| Evaluation.IsSafeMirror | pkg/ai/evaluation.go:188-190 | a point is safe exactly when its mirror point is safe on the mirrored board |
| Evaluation.FreeSpots | pkg/ai/evaluation.go:158-176 | the count of points of the scanned home (18..23 for black, 0..5 otherwise) not made by that colour; between 0 and 6 |
| Evaluation.FreeSpotsMirror | pkg/ai/evaluation.go:158-176 | black's free home points on a board are white's on the mirror, and the other way round |
| Evaluation.CanBeBarredNextMove | pkg/ai/evaluation.go:141-156 | true iff an opposing checker stands in the window: black on `[max(idx-6,0), idx-1]` for white; white on `[idx+1, min(idx+6,24)-1]`, five points, otherwise |
| Evaluation.SourceReachMissesSix | pkg/ai/evaluation.go:149 | a white checker six points above a black blot is not seen, though the mirrored threat against white is |
| Evaluation.HitThreatIntendedMirror | pkg/ai/evaluation.go:141-156 | with a six-point window for both sides, a blot is exposed exactly when its mirror image is |
| Evaluation.UnsafeWeight | pkg/ai/evaluation.go:59-72 | a point adds 0 to 5, and only a blot of the mover adds anything |
| Evaluation.UnsafeCheckersScore | pkg/ai/evaluation.go:57-76 | the loop sums the weights: 1 for a blot in the zone (white from 18, black up to 5), else 5 if it can be hit, else 0 |
| Evaluation.UnsafeScoreBounds | pkg/ai/evaluation.go:57-76 | the score lies between 0 and five times the number of the mover's blots |
| Evaluation.UnsafeScoreIntendedMirror | pkg/ai/evaluation.go:57-76 | with the six-point window, the unsafe score is mirror-invariant |
| Evaluation.CoverageScore | pkg/ai/evaluation.go:78-139 | the coverage score lies between 0 and 38 |
| Evaluation.GoodCoverageCheckerScore | pkg/ai/evaluation.go:78-139 | the loops and bonuses compute `CoverageScore`: one per safe point outside home, plus 3.5, 5, 4, 3, 2, 1.5, 1 from the point before home inwards |
| Evaluation.CoverageMirror | pkg/ai/evaluation.go:78-139 | white's coverage on a board equals black's on the mirror, and the other way round |
| Evaluation.ExpectedDelay | pkg/ai/evaluation.go:178-186 | the expected wait to enter from the bar is at least one turn |
| Evaluation.ExpectedDelayTable | pkg/ai/evaluation.go:178-186 | the wait is 10, 36/11, 9/5, 4/3, 9/8, 36/35 and 1 for 0..6 open points, never growing as more points open |
| Evaluation.BarCharge | pkg/ai/evaluation.go:52 | each checker on the bar costs at least the full 24-pip trip |
| Evaluation.BarPenalty | pkg/ai/evaluation.go:43-53 | the bar penalty is non-negative, and non-zero only for white or black with checkers on their own bar |
| Evaluation.CheckerDistanceScore | pkg/ai/evaluation.go:29-55 | the loop and bar penalty compute the pip count of the mover plus `BarPenalty` |
| Evaluation.DistanceWithoutBar | pkg/ai/evaluation.go:29-42 | without checkers on the mover's bar, the distance is the integer pip count: `count * (24 - idx)` for black, `count * (idx + 1)` otherwise |
| Evaluation.PipCountMirror | pkg/ai/evaluation.go:29-42 | white's pip count on a board is black's on the mirror, and the other way round |
| Evaluation.BarPenaltyMirror | pkg/ai/evaluation.go:43-53 | the bar penalty too is mirror-invariant |
| Evaluation.DistanceMirror | pkg/ai/evaluation.go:29-55 | so is the whole distance score |
| Evaluation.ScoreDifference | pkg/ai/evaluation.go:16-27 | black's scores minus white's, weighted 100, 50 and 50, computed on two copies with the turn overwritten |
| Evaluation.EvaluateBoard | pkg/ai/evaluation.go:9-14 | the difference as seen by white, negated for every other side to move |
| Evaluation.BoardScoreIgnoresMover | pkg/ai/evaluation.go:16-20 | the difference does not depend on whose turn it is |
| Evaluation.MoverScoreNegates | pkg/ai/evaluation.go:9-27 | two boards that differ only in the side to move, white or black, get opposite evaluations |
| Evaluation.BoardScoreIntendedAntisymmetric | pkg/ai/evaluation.go:16-27 | with the six-point window, mirroring a board negates the difference |

## Left out

- `pkg/ai/minimax.go`: the search itself is not modelled. It depends on move generation and the state classifier, which are not part of this model, and it shuffles with a time-seeded random source.
- Move generation (`GetValidMovesForDie`, `GetAllPossibleMoveRolls`), `ComputeGameState`, `NewBoard(color)`, `DieRoll`, `SerializeBoard` and `DeserializeBoard` are not part of this model. `TO_INDEX_FOR_BEARING_OFF` is declared outside the modelled files, so `ToIndexForBearingOff` is a constant with no stated value.
- `CopyBoard` is a value copy and board equality is structural. Both are declared outside the modelled files.
- `Board.String` (board.go:67-81) and `cmd/backgammon/main.go`: display, profiling and file output only.
- `pkg/game/backgammon_game.go`: wrappers around serialization, which is not part of this model. Its only rule, that the turn passes to `1 - ColorToMove` after a move or roll, is not modelled beyond `ApplyRollKeepsShape`, which shows a roll itself never changes the turn.
- `pkg/game/player.go` and `pkg/ai/ai.go` hold interfaces and delegation only.
- Evaluation: float32 rounding is not modelled. Every evaluator score is computed exactly, with integer counts and `real` for the fractional parts. This covers `math.Pow` in `expectedDelay` (a square), the bar penalty and the weighted sum. The single-precision results can differ from these in the last bits.
- Colours and counts are unbounded integers. The source's `int8` colour wraps only outside the values 0..3 that occur.
- Moves.MakeMove: a board with fewer slots than a move touches becomes an index-out-of-range `Panicked` result. It is not a run-time crash with a partial write.
- MoveCompare.IsEqual: `sort.Slice` on slices longer than six elements is not modelled: from Go 1.19 slices longer than twelve go through pattern-defeating quicksort, and earlier releases add a gap-6 pass for 7 to 12 elements. A move roll has at most four moves.
- MoveCompare.AreMoveRollListsEqual: the model works on values, so the side effect of `isEqual` sorting the rolls of both lists in place is not kept. Assuming no two rolls of the two lists share a backing array, it does not change any answer, because sorting is idempotent (`GoSortIdempotent`, `RollsEqualAfterSorting`).
- MoveCompare.IsEqual: partial aliasing is not modelled. A `MoveRoll` is a Go slice, and two rolls cut from one backing array (`s[:2]` and `s[:3]`, or `s[0:2]` and `s[1:3]`) overlap, so sorting one in place reorders the other and a later comparison can answer differently. The model's rolls are values, and its arrays are either one array or disjoint.
- Evaluation.BoardScore: parameterized by the black hit window. `EvaluateBoard` and `ScoreDifference` use the source's five-point window. The symmetric six-point version is used only for `BoardScoreIntendedAntisymmetric`.

## Findings

| source | as written | input that shows it | evidently intended | confidence | as-written member | corrected member |
|---|---|---|---|---|---|---|
| pkg/board/move.go:85 | for equal `From` and `To` the comparator answers `Type == Type`, so insertion sort never reorders two moves that differ only in type, and `isEqual` can reject a permutation | `[Move(1,2,NORMAL_MOVE), Move(1,2,BEARING_OFF_MOVE)]` compared with its reverse answers false | a strict order on (`From`, `To`, `Type`), under which `isEqual` is exactly the permutation test | not executed | MoveCompare.RollsEqualIncomplete | MoveCompare.RollsEqualIntendedIsPermutation |
| pkg/ai/evaluation.go:149 | for black the hit window stops at `min(idx+6, 24) - 1`, five points, while white's covers six | black blot on 10, one white checker on 16: not counted as exposed, although the mirrored position against white is | a six-point window, `idx+1 .. min(idx+7, 24) - 1`, which makes exposure and the whole evaluation mirror-symmetric | not executed | Evaluation.SourceReachMissesSix | Evaluation.HitThreatIntendedMirror |
