# Sudoku candidate-propagation engine in Dafny

This project models `engine.c` of a small Sudoku solver. The solver works by constraint propagation alone and never backtracks.

**The board.** A board is 9x9 cells. Each cell holds a 9-bit candidate set: bit d-1 set means digit d is still possible.

**Clusters.** The solver looks for clusters (naked subsets) in every row, column and 3x3 square. A cluster is k cells, for k = 1, 2 or 3, whose candidates together number exactly k. The digits of a cluster are then removed from every other cell of that line.

**Passes.** One pass treats the nine rows, then the nine columns, then the nine squares. SolveBoard repeats passes until the total number of candidates on the board (BoardCheckSum) stops changing.

**Modules.**

| Module | File | What it models |
|---|---|---|
| `Cell` | `cell.dfy` | candidate sets as `bv9`; `Pop`, the number of candidates; BitCount and SinglePossible as methods proved against `Pop` |
| `Geometry` | `geometry.dfy` | RowAndColToSquare; which board cell entry i of a row, column or square copy stands for; the value-level copy (`Extract`) and write-back (`Write`) and their round trips |
| `Combinations` | `combinations.dfy` | the hand-written lexicographic k-combination generator of FindLineClusters (the in-place `AdvanceIndices`), proved to step through a declarative list `Combs` of all strictly increasing k-tuples |
| `ClusterSearch` | `clusters.dfy` | FindLineClusters: a reference function `Clusters` and the imperative search proved equal to it; the properties of every cluster found; the scan of unclaimed positions, both as written and corrected |
| `Filter` | `filter.dfy` | FilterCellsByClusters in place on an array, proved equal to a fold of the clusters over the line, with a per-cell closed form |
| `Board` | `board.dfy` | `class SudokuBoard` over an 81-cell array (cell (row, col) at 9*row + col); blank_board, SetCell, the copy and write-back methods, BoardCheckSum, and SolveBoard proved equal to a value-level fixpoint `Solve` |
| `Regression` | `regression.dfy` | the vectors of `tests.c` restated and proved: BitCount, the three FindLineClusters lines (exact cluster lists) and FilterCellsByClusters |
| `Options` | `options.dfy` | an `Option` type |

**Specification functions.** The recursive functions `Clusters`, `Filtered`, `Write` and `Solve` specify the imperative code. They reproduce the source's order of work: clusters by size, then in lexicographic order of their positions; the clusters applied one after the other; rows, then columns, then squares.

Where the code and its comments disagree, the model follows the code. Two cases:
- Positions claimed while scanning one size do not leave the list of positions scanned for that size (engine.c:408-418, 438). Clusters of the same size may therefore overlap.
- `num_in_cluster` counts a position once per cluster that holds it. The number of apparent indices, 9 - `num_in_cluster`, can thus be smaller than the number of unclaimed positions. The model keeps that count.

## Model

| member | source | states |
|---|---|---|
| Cell.BitCount | engine.c:61-70 | returns the number of digits whose bit is set in the 9-bit value (`Pop`) |
| Cell.PopClearLowest | engine.c:64-67 | `bits &= bits - 1` on a non-empty set removes exactly one candidate, so the loop ends after `Pop(bits)` steps |
| Cell.SinglePossible | engine.c:78-93 | returns -1 exactly when the cell has zero or several candidates; otherwise returns a digit d in 1..9 whose bit is the whole cell |
| Cell.PopSubset | engine.c:259-263 | a subset has no more candidates than its superset, and as many only when equal |
| Cell.PopOne | engine.c:78-93 | one candidate exactly when the set is the bit of some digit |
| Board.SudokuBoard.Blank | engine.c:44-52 | the fresh board has every digit possible in all 81 cells |
| Board.SudokuBoard.SetCell | engine.c:106-108 | cell (row, col) becomes the bit of `value`; every other cell is unchanged |
| Board.SetCellReadsBack | engine.c:78-93 | the bit of v has one candidate and is the bit of no other digit, so SinglePossible reads v back after SetCell |
| Board.BlankReadsNothing | engine.c:44-52 | a blank cell has nine candidates, so SinglePossible reads -1 there |
| Geometry.RowAndColToSquare | engine.c:174-176 | the square of (row, col) is in 0..8; its square-row is row / 3 and its square-column is col / 3 |
| Geometry.CellIndexInverse | engine.c:185-233 | entry i of the copy of a line lies on that line, at entry i |
| Geometry.LineOfInverse | engine.c:185-233 | every board cell is the entry PosInLine of its own line, so the nine lines of a kind cover the board |
| Geometry.CellIndexInjective | engine.c:185-233 | distinct entries of one copy come from distinct cells |
| Geometry.SquareCellsInSquare | engine.c:185-198 | entry i of square s is cell (3*(s/3) + i/3, 3*(s%3) + i%3), and RowAndColToSquare maps it back to s |
| Geometry.SquareIndex | engine.c:369-373 | the cell SetCellsOnSquare writes entry 3*r + c to is the cell CellsFromSquare copied it from |
| Geometry.WriteAt | engine.c:334-375 | writing a line puts entry i on the cell it was copied from and leaves every cell off the line unchanged |
| Geometry.WriteExtract | engine.c:334-375 | writing back an unmodified copy of a row, column or square leaves the board as it was |
| Geometry.ExtractWrite | engine.c:185-233 | copying a line after writing `cells` to it gives back `cells` |
| Geometry.WritePrefixAll | engine.c:335-336 | the cell-by-cell writes of the loop, all nine done, are the line write |
| Board.SudokuBoard.CellsFromRow | engine.c:209-216 | returns a fresh 9-cell copy of the row |
| Board.SudokuBoard.CellsFromColumn | engine.c:226-233 | returns a fresh 9-cell copy of the column |
| Board.SudokuBoard.CellsFromSquare | engine.c:185-198 | returns a fresh copy of the square, row by row |
| Board.SudokuBoard.SetCellsOnRow | engine.c:334-337 | the board becomes the old board with the row overwritten by the copy |
| Board.SudokuBoard.SetCellsOnColumn | engine.c:349-352 | the board becomes the old board with the column overwritten by the copy |
| Board.SudokuBoard.SetCellsOnSquare | engine.c:364-375 | the board becomes the old board with the square overwritten, entry i on the cell it was copied from |
| Combinations.CombsValid | engine.c:421-477 | every entry of the reference list is a strictly increasing k-tuple over [lo, n) |
| Combinations.CombsComplete | engine.c:421-477 | every strictly increasing k-tuple over [lo, n) is in the list |
| Combinations.CombsSorted | engine.c:421-477 | the list is in strictly increasing lexicographic order, so each tuple appears once |
| Combinations.CombsFirst | engine.c:421-424 | the first tuple is lo, lo+1, ..., lo+k-1 |
| Combinations.NextValid | engine.c:451-472 | the successor of a tuple is a tuple and lexicographically larger |
| Combinations.NextLeast | engine.c:451-472 | no tuple lies strictly between a tuple and its successor, and a successor exists whenever a larger tuple does |
| Combinations.CombsNext | engine.c:451-476 | from each tuple of the list the generator steps to the next one; after the last one it reports that it is exhausted |
| Combinations.CombsEnumerate | engine.c:421-477 | starting at 0..k-1, the generator visits exactly the reference list, in order, then stops |
| Combinations.AdvanceIndices | engine.c:451-472 | in place, the indices become their successor and the index to increment is reset to k-1; when none is left, the indices are unchanged and -1 is returned |
| ClusterSearch.UnclaimedSpec | engine.c:408-418 | the apparent-to-real map lists exactly the unclaimed positions, in increasing order; its length is 9 minus the number claimed |
| ClusterSearch.UnclaimedPositions | engine.c:408-418 | the scan, with the bound the inner loop lacks, returns that map |
| ClusterSearch.ScanAsWrittenOverruns | engine.c:412-418 | the scan as written reads past the end of `is_in_cluster` exactly when position 8 is claimed |
| ClusterSearch.ScanAsWrittenAgrees | engine.c:412-418 | when position 8 is unclaimed, the scan as written returns the intended map |
| ClusterSearch.ComboUnion | engine.c:427-430 | the OR of the candidates of the cells the apparent indices map to |
| ClusterSearch.ClaimCombo | engine.c:432-440 | the positions recorded are the real positions of the combination; those are marked claimed and the count grows by k |
| ClusterSearch.VisitCombination | engine.c:427-448 | a cluster is appended exactly when the union has k candidates; the claims and the count follow the clusters found |
| ClusterSearch.FirstCombination | engine.c:421-423 | the first combination is 0..k-1 |
| ClusterSearch.ScanCombinations | engine.c:426-477 | the clusters found for one size are those of the enumerated combinations, in the order visited; claims and count follow them |
| ClusterSearch.FindClustersOfSize | engine.c:406-477 | one size's search returns the reference clusters of that size given the claims so far |
| ClusterSearch.FindLineClusters | engine.c:387-483 | returns exactly the reference list `Clusters(cells)` |
| ClusterSearch.SearchValid | engine.c:427-447 | every cluster the search of one size produces is valid, has size k and lies on scanned positions |
| ClusterSearch.SearchComplete | engine.c:426-448 | every increasing k-tuple of scanned positions whose union has k candidates is produced |
| ClusterSearch.SizeFoundComplete | engine.c:426-448 | when the count of claims is exact, every unclaimed k-subset with a union of k candidates is found at size k |
| ClusterSearch.SizeFoundSound | engine.c:426-448 | every cluster found at size k is valid, has size k and lies on unclaimed positions |
| ClusterSearch.SearchDistinct | engine.c:421-477 | the walk over the combinations of one size lists no cluster twice: two clusters that differ in whether they take an apparent index differ in a position |
| ClusterSearch.SizeFoundDistinct | engine.c:426-448 | no cluster is listed twice at one size |
| ClusterSearch.FindFromShape | engine.c:399-447 | clusters are found from the current size upward and avoid every position claimed before |
| ClusterSearch.ClustersValid | engine.c:399-447 | every returned cluster has size 1..3, that many strictly increasing positions in 0..8, and a bitset that is the OR of its cells with exactly `size` candidates |
| ClusterSearch.FindFromSizeOrder | engine.c:399 | the clusters appear in nondecreasing order of size |
| ClusterSearch.FindFromDisjointSizes | engine.c:408-418 | two clusters of different sizes never share a position |
| ClusterSearch.FindFromBreak | engine.c:403-404 | a cluster of size k is only found while k < 9 minus the positions claimed at smaller sizes |
| ClusterSearch.NakedSingles | engine.c:399-447 | a cell has exactly one candidate if and only if it forms a size-1 cluster |
| ClusterSearch.ClusterMembersSmall | engine.c:431 | a cell of a k-cluster has at most k candidates |
| ClusterSearch.NoSmallCellsNoClusters | engine.c:399-447 | a line whose every cell has more than three candidates has no clusters |
| Filter.ApplyClusterInPlace | engine.c:250-254 | each cell outside the cluster loses the cluster's digits, and each cell in it is unchanged |
| Filter.FilterCellsByClusters | engine.c:242-256 | the line becomes the clusters applied one after the other |
| Filter.FilteredAt | engine.c:242-256 | each cell ends as its old value with the digits of every cluster not holding it cleared |
| Filter.ApplyClusterKeepsMembers | engine.c:252 | a cluster never alters its own cells |
| Filter.FilteredShrinks | engine.c:253 | no cell gains a candidate |
| Filter.FilteredRemoves | engine.c:250-253 | a cell outside a cluster keeps none of its digits |
| Filter.FilteredKeepsCommon | engine.c:251-253 | a cell that every cluster holds is unchanged |
| Board.SudokuBoard.BoardCheckSum | engine.c:268-278 | returns the total number of candidates on the board |
| Board.CheckSumLess | engine.c:259-263 | with no cell gaining candidates, the checksum does not grow, and stays equal only when every cell keeps its count |
| Board.CheckSumMoreSolved | engine.c:259-263 | a board in a strictly more solved state has a strictly smaller, so different, checksum |
| Board.CheckSumMonotone | engine.c:259-263 | clearing candidates never raises the checksum, and keeps it only when nothing was cleared |
| Board.LineStepRefines | engine.c:294-299 | treating one line only clears candidates |
| Board.PassRefines | engine.c:293-317 | a pass only clears candidates |
| Board.SolveRefines | engine.c:287-321 | SolveBoard only clears candidates |
| Board.SolveFixpoint | engine.c:318-320 | SolveBoard stops at a board that one more pass leaves unchanged |
| Board.PassStep | engine.c:317-320 | a pass never raises the checksum; an unchanged checksum means the loop has reached its result |
| Board.SolveBlank | engine.c:287-321 | on a blank board the first pass changes nothing and SolveBoard stops there |
| Board.SudokuBoard.SolveRow | engine.c:294-299 | row `row` is copied, filtered by its clusters and written back |
| Board.SudokuBoard.SolveColumn | engine.c:303-308 | column `col` is copied, filtered by its clusters and written back |
| Board.SudokuBoard.SolveSquare | engine.c:312-317 | square `squareNum` is copied, filtered by its clusters and written back |
| Board.SudokuBoard.SolvePass | engine.c:293-317 | the board becomes one pass of the rows, then the columns, then the squares |
| Board.SudokuBoard.SolveBoard | engine.c:287-321 | the board becomes `Solve` of the old board: passes until the checksum stops changing |
| Regression.BitCountValues | tests.c:259-262 | BitCount gives 2 for 5, 0 for 0, 1 for 64 and 9 for all bits |
| Regression.LineThreeClusters | tests.c:240-246 | on a line of blank cells whose last cell holds only digit 5, the single in the last cell is found and no other cluster is |
| Regression.LineThreeFound | tests.c:240-246 | FindLineClusters returns exactly one cluster on that line: the single in the last cell |
| Regression.LineOneFound | tests.c:155-206 | on the line with a triple on positions 0, 2, 4, a pair on 1 and 8 and a single at 7, FindLineClusters returns the single, the pair and the triple, in that order, with the digit sets and positions the test expects |
| Regression.LineTwoClusters | tests.c:219-227 | on the line of eight solved cells and one cell holding 5 and 8, FindLineClusters returns the eight singles in position order, so 8 clusters |
| Regression.LineOneFiltered | tests.c:272-313 | FilterCellsByClusters with the clusters of that line leaves the cluster cells as they were and reduces each blank cell to {5, 8, 9} |
| Board.SetThenRead | tests.c:67-105 | on a fresh blank board, after SetCell places `value` at (row, col), SinglePossible reads `value` there and -1 at any other cell |
| Regression.LineThreeOverruns | tests.c:240-246 | after that single claims position 8, the scan as written overruns `is_in_cluster` |

## Left out

- PrintBoard (engine.c:116-148) is not modelled: it only formats text with `printf`.
- tests.c, examples.c and main.c are not modelled as code. They are test, data and driver code. The vectors of tests.c for BitCount, cell setting, FindLineClusters and FilterCellsByClusters are restated as lemmas in `Regression` and as `Board.SetThenRead`; TestCellsFromSquare is covered by the general `Geometry.SquareCellsInSquare` rather than by its own vector.
- Heap management is not modelled: `malloc`, `calloc` and `free` in the line copies and in FindLineClusters. The copies are fresh arrays, and the cluster lists and positions are sequences.
- Undefined behaviour on contradictory lines is not modelled. When same-size clusters overlap, `num_in_cluster` over-counts. The list of clusters can also outgrow the 9-slot buffer of engine.c:389. The model's sequences have no such bound.
- The out-of-bounds read at engine.c:413 is modelled separately (see Findings). FindLineClusters uses the bounded scan.
- Cell.BitCount: takes 9-bit values only, which is all the engine passes it. It does not model the C `int` argument, negative values or 32-bit wrap-around.
- Board.SudokuBoard.SetCell: requires 1 <= value <= 9, as the source's comment asks. Values outside that range, which the 9-bit field would truncate, are not modelled.
- SetBooleanArray (engine.c:158-162) is folded into the initialisation of fresh arrays.
- The unused structs `Cluster` and `ClusterGroups` (engine.h:45-54) are not modelled.
- `kCellsPerSide` (engine.c:22) is fixed at 3. The storage and bit-fields are 9x9 and 9-bit anyway.
- The 9x9 two-dimensional array is stored as one array of 81 cells, row by row: cell (row, col) is at 9*row + col, the C memory layout.

## Findings

| source | as written | input that shows it | evidently intended | confidence | as-written member | corrected member |
|---|---|---|---|---|---|---|
| engine.c:412-418 | the inner `while (is_in_cluster[real_index])` loop has no `real_index < kMaxNumber` bound | any line where position 8 is claimed at a smaller size, e.g. TestFindLineClusters3 (tests.c:240-246): the single at position 8 is claimed at size 1, so the size-2 scan reads `is_in_cluster[9]` | the scan stops at position 8 and lists exactly the unclaimed positions in increasing order | not executed | ClusterSearch.ScanAsWrittenOverruns | ClusterSearch.UnclaimedPositions |
