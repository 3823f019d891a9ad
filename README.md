# N-Queens solver, modelled in Dafny

This project models the solver core of `N-Queens_Solver.c`:
- the bitset macros FLIP_BIT and CHECK_BIT;
- the `Board` struct;
- `add_queen` and `remove_last_queen`;
- `is_legal_position`;
- the two depth-first searches, `find_first_solution` and `count_solutions`.

The project has five modules:

- `Placement` (placement.dfy) covers the facts about queens, with no board.
  - A placement is a sequence of 0-based files, one per rank from rank 0 up.
  - `NonAttacking` says no two queens share a file or a diagonal.
  - A placement has one queen per rank by construction, so no two share a rank.
  - `Decode` reads a placement from the 1-based `locations` array.
  - `Ranks`, `Files`, `Diag1s` and `Diag2s` are the occupancy sets the four bitsets mark.
  - `Fits` is the per-rank test of a new queen against the placed ones.
- `BoardModel` (board_model.dfy) holds the struct as a value.
  - `BoardState` has the same six fields: bitsets of 128, 128, 256 and 256 bits, and 100 locations.
  - `Inv` is the board invariant. Queens fill ranks `0 .. number_of_queens-1`. The other entries are 0. Every bitset marks exactly the ranks, files and diagonals in use. The queens do not attack each other.
  - `AddQueen` and `RemoveLastQueen` are functions on the state.
- `Boards` (board.dfy) holds the mutable struct.
  - `Board` is a class whose arrays `AddQueen` and `RemoveLastQueen` update in place.
  - Each method is proved to produce the state the `BoardModel` function computes.
- `SearchSpec` (search_spec.dfy) says what the searches compute.
  - `Solutions(n)` is the set of solutions. `LexLess` is the rank-by-rank order of files in which the search meets them. `IsFirstSolution` picks the least solution in that order.
  - At a search point `(q, start)`, `Pending` is the set of solutions not yet passed.
  - `Ahead` counts the solutions the search itself goes on to meet. `AheadPending` proves the two agree.
  - `Potential` bounds the steps left, and each step lowers it.
- `Solver` (search.dfy) holds the three clients, written as imperative loops over a `Board`.
  - `goto start` ends one pass of the outer `while (1)`, modelled by `SearchStep`.
  - `Advance` restates each pass in terms of `Ahead` and `Potential`.
  - The loops' invariants tie the board to a ghost placement.

## Model

| member | source | states |
|---|---|---|
| Boards.FlipBit | N-Queens_Solver.c:4-6 | toggles exactly bit i of the bitset and leaves every other bit as it was |
| BoardModel.FlipBits | N-Queens_Solver.c:4-6 | `Flip`, FLIP_BIT on a value: flipping bit i of a bitset that marks set s gives a bitset marking s with i removed when it was in s, and added when it was not |
| Boards.CheckBit | N-Queens_Solver.c:7-9 | the bit tested is set exactly when i is in the set the bitset marks |
| Boards.Board.constructor | N-Queens_Solver.c:14-21 | a fresh board has the array sizes of the struct and every field zero |
| BoardModel.EmptyInv | N-Queens_Solver.c:95 | `Empty`, the all-zero board, satisfies the board invariant for every n in 1..100 and holds no queens |
| BoardModel.QueensInRange | N-Queens_Solver.c:16 | on a valid board every recorded location is a file from 1 to n |
| Boards.Board.AddQueen | N-Queens_Solver.c:51-67 | adds the queen exactly when its rank, file, diag1 and diag2 bits are all clear; the new board is the one `BoardModel.AddQueen` computes, and a refused square changes nothing |
| BoardModel.AddQueenAt | N-Queens_Solver.c:52-59 | square `rank * n + file` splits back into that rank and file; `AddQueen`, add_queen on a value, there places the queen when the square is free and otherwise returns the board unchanged |
| BoardModel.FreeIsVacant | N-Queens_Solver.c:53-59 | on a valid board the four bit tests pass exactly when no placed queen shares the new queen's rank, file or either diagonal |
| BoardModel.FreeIffNonAttacking | N-Queens_Solver.c:53-59 | add_queen accepts file f on the next rank exactly when the placement extended with f is non-attacking, and then the board is not yet full |
| BoardModel.FullBoardRefuses | N-Queens_Solver.c:155-160 | on a board holding n queens every square of rank n is refused, so after a solution is counted the search backtracks |
| BoardModel.PlaceKeepsInv | N-Queens_Solver.c:60-65 | placing a queen that passed the four tests keeps the board invariant and appends its file to the placement |
| Boards.Board.RemoveLastQueen | N-Queens_Solver.c:74-86 | the new board is the one `BoardModel.RemoveLastQueen` computes: counter decremented, the last queen's four bits flipped, its location cleared |
| BoardModel.PopKeepsInv | N-Queens_Solver.c:74-86 | `RemoveLastQueen`, remove_last_queen on a value: removing the last queen of a valid board keeps the invariant and drops the last file of the placement |
| BoardModel.AddRemoveRoundTrip | N-Queens_Solver.c:51-86 | remove_last_queen exactly undoes a successful add_queen on the next rank |
| Placement.FitsIff | N-Queens_Solver.c:53-59 | for a non-attacking placement, a new queen on file f keeps it non-attacking exactly when it is clear of every placed queen's file and diagonals |
| Placement.ExtendNonAttacking | N-Queens_Solver.c:53-59 | a non-attacking placement stays non-attacking with file f on the next rank exactly when that square is vacant |
| Placement.PrefixNonAttacking | N-Queens_Solver.c:96-97 | every prefix of a non-attacking placement is non-attacking, so one refused add_queen makes the whole position illegal |
| Placement.FullPlacementFiles | N-Queens_Solver.c:155-160 | a complete non-attacking placement uses every file |
| Solver.IsLegalPosition | N-Queens_Solver.c:94-100 | returns true exactly when the first n entries of the 1-based locations array form a non-attacking placement |
| Solver.PlaceFrom | N-Queens_Solver.c:96-97 | one round of the loop: on success the board holds the first i + 1 entries; on refusal the whole placement is attacking |
| Solver.AddOnNextRank | N-Queens_Solver.c:130 | the call on square `number_of_queens * n + file` succeeds exactly when the placement extended with that file is non-attacking, and then appends it |
| Solver.TryFiles | N-Queens_Solver.c:129-135 | stops at the first file from `last_queen_file` on whose queen is accepted; every file skipped was attacked; on an empty board the first file tried is accepted |
| Solver.Backtrack | N-Queens_Solver.c:136-137 | returns the 1-based file of the last queen and drops that queen; rank 0 is empty afterwards exactly when it was the only queen |
| Solver.SearchStep | N-Queens_Solver.c:128-138 | either places a queen on the first file that fits, all earlier files being attacked, or, no file fitting, backtracks; `finished` holds exactly when the exit test of the search holds |
| Solver.Advance | N-Queens_Solver.c:127-139 | the count of solutions ahead drops by one exactly when the queen placed completes the board, and is unchanged otherwise; the potential drops on every pass |
| Solver.FindFirstSolution | N-Queens_Solver.c:124-140 | the board returned is valid; it holds n queens forming the first solution in search order, or no queen, and then the problem has no solution |
| Solver.CountSolutions | N-Queens_Solver.c:148-165 | returns the number of solutions of the n-queens problem |
| SearchSpec.SolutionsMembers | N-Queens_Solver.c:131 | a solution is exactly a complete placement of files in 0..n-1 that is non-attacking |
| SearchSpec.TwoQueensAttack | N-Queens_Solver.c:129-137 | on the 2 x 2 board every complete in-range placement has two attacking queens |
| SearchSpec.TwoQueensUnsolvable | N-Queens_Solver.c:124-140 | the 2-queens problem has no solution, so find_first_solution returns an empty board and count_solutions returns 0 |
| SearchSpec.ThreeQueensAttack | N-Queens_Solver.c:129-137 | on the 3 x 3 board every complete in-range placement has two attacking queens |
| SearchSpec.ThreeQueensUnsolvable | N-Queens_Solver.c:124-140 | the 3-queens problem has no solution, so find_first_solution returns an empty board and count_solutions returns 0 |
| SearchSpec.FourQueensSolvable | N-Queens_Solver.c:198 | files 1, 3, 0, 2 on ranks 0 .. 3 form a solution of the 4-queens problem, the smallest size `main` accepts |
| SearchSpec.LexLessTotal | N-Queens_Solver.c:129 | any two distinct complete placements are ordered by the search order |
| SearchSpec.LexLessAsymmetric | N-Queens_Solver.c:129 | the search order is asymmetric |
| SearchSpec.FirstSolutionUnique | N-Queens_Solver.c:118-124 | there is at most one first solution |
| SearchSpec.PendingInit | N-Queens_Solver.c:125-126 | at the start every solution is pending |
| SearchSpec.PendingSkip | N-Queens_Solver.c:129-130 | skipping a file whose queen is attacked passes no solution |
| SearchSpec.PendingDescend | N-Queens_Solver.c:130-133 | placing a fitting queen passes exactly the solution it completes, if any, and the search resumes on file 0 of the next rank |
| SearchSpec.PendingExhausted | N-Queens_Solver.c:136-137 | when no file or rank is left, what is pending is what the parent point has pending after its last queen's file |
| SearchSpec.PendingFirst | N-Queens_Solver.c:131 | a completed board found at a search point precedes every other solution pending there |
| SearchSpec.AheadPending | N-Queens_Solver.c:127-139 | from every non-attacking in-range point the number of solutions the search meets is the number of solutions pending |
| SearchSpec.AheadInit | N-Queens_Solver.c:148-165 | from the start the search meets every solution exactly once |
| SearchSpec.AheadSkip | N-Queens_Solver.c:129-135 | skipping files whose queens are attacked changes neither the count ahead nor raises the potential |
| SearchSpec.StepForward | N-Queens_Solver.c:129-133 | a pass that places a queen keeps the count ahead, less the solution completed, and lowers the potential |
| SearchSpec.StepBack | N-Queens_Solver.c:136-137 | a pass that backtracks keeps the count ahead and lowers the potential |
| SearchSpec.FirstFound | N-Queens_Solver.c:131 | the first complete board the search reaches, with every solution but it still ahead, is the first solution in search order |
| SearchSpec.FoundCount | N-Queens_Solver.c:131 | at the first completed board every solution is still pending |
| SearchSpec.PotentialDescend | N-Queens_Solver.c:132-133 | placing a queen lowers the potential |
| SearchSpec.PotentialBacktrack | N-Queens_Solver.c:136-137 | backtracking lowers the potential |

## Left out

- `display_board`, `get_intiger_input` and `main` are left out. They are terminal I/O around the core.
- `next_legal_position` is left out. No other function calls it.
- Bit packing is left out. FLIP_BIT and CHECK_BIT address bit `n % 32` of word `n / 32`. Here each bitset is a sequence of booleans with one entry per bit. The number of bits per bitset is the same as in the struct.
- Solver.CountSolutions: the result is an unbounded `int`, so the model does not wrap. The C counter is a 32-bit `int`. For n = 19 and n = 20, which `main` still asks for, the number of solutions exceeds 2^31 - 1, so the C counter overflows. Proving that the model's count exceeds 2^31 - 1 would mean computing those solution counts, which the model does not do.
- Solver.IsLegalPosition: requires every one of the first n entries to be a file from 1 to n, and states its result only for such entries. Outside that range the C code computes square `i * n + locations[i] - 1`, which belongs to a different rank:
  - An entry 0 on rank i >= 1 names the last file of rank i - 1. When every earlier entry is in 1..n, that rank is taken, so add_queen refuses it. After an earlier entry n + 1 it can be empty and the queen accepted: with n = 3 and locations starting `[4, 0]`, the queens land on (1, 0) and (0, 2) and both are accepted.
  - An entry n + 1 on rank i names file 0 of rank i + 1. That square can be free, and then add_queen accepts it. With n = 1 and locations `[2]`, is_legal_position returns 1. With n = 6 and locations `[2, 4, 6, 3, 5, 7]`, the last queen lands on rank 6 and the function returns 1.
  - An entry 0 on rank 0 gives square -1. For n >= 2 that is rank 0 and file -1, and the file test of CHECK_BIT shifts by a negative amount. For n = 1 it is rank -1 and file 0, and the negative shift happens in the rank test. Any entry e on rank i gives square s = i·n + e − 1. For n ≤ 100, while 0 ≤ s and s / n < 128, every index add_queen uses is inside the bitsets (the diagonals reach at most 226), so add_queen tests that square like any other. An accepted queen on rank 100 or above writes past `locations`. A negative s gives a negative rank or file, and a CHECK_BIT on it is undefined behaviour.
- Boards.Board.AddQueen: requires the square's rank to index `occupied_rank`. It requires an accepted queen's rank to index `locations`. Every caller in the core meets both.
- Solver.FindFirstSolution: proves that the result is the first solution whenever it holds n queens. It does not prove that a solution exists for every n >= 4, the range `main` uses. `SearchSpec.TwoQueensUnsolvable` and `SearchSpec.ThreeQueensUnsolvable` prove that n = 2 and n = 3 have no solution, so there the result holds no queen. `SearchSpec.FourQueensSolvable` proves that n = 4 has one, so there the result holds four queens.
