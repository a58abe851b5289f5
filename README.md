# A verified model of a 9×9 sudoku engine

This project models the core of a Java sudoku engine in Dafny: the
candidate-set cell, the 81-cell grid with its row, column and box views, the
set-semantics work queue, the stack of integer layers used by the naked-set
search, the propagating solver and its deduction rules, the backtracking
brute-force solver and the validity checks built on it, and the grid
transforms (rotations, flips, reflections, band/stack/line swaps, digit
relabelling).

The model keeps the source's form. `Cell`, `Grid`, `QueueSet`, `StackSet` and
`Solver` are classes whose methods update their fields in place. The
`int[][]` of the brute-force solver is an `array2<int>`. Each transform builds
a fresh grid with nested loops. Every method is proved against a
specification:

- A grid is observed through `Grid.Cands()`, the 81 candidate sets indexed by
  `row * 9 + column`. Methods state the new board as a function of the old
  one.
- The solver's rules are proved **sound**. `Solutions.Sound(s0, s1, targets,
  failed)` says that every solution admitted by the board before the rule is
  admitted after it, and that a run which reports failure started from a board
  with no solution. Rules that read frequency snapshots (hidden single,
  pointing, claiming, X-wing) are sound when the board they start from has
  every naked single eliminated (`Propagation.Propagated`). The solver keeps
  that condition as an invariant.
- `Solver.solve` is proved to end. The total number of candidates and the
  queue length are its measure. When it reports a solved board, that board is
  the one solution the starting board admits.
- The brute-force solver is proved to return the lexicographically least
  completion of its input when it succeeds, and to restore its input when it
  fails.
- The transforms are stated cell by cell. Their algebra is proved: each one
  except the quarter turn is an involution, three quarter turns undo one, and
  relabelling keeps sizes, solved cells and duplicates.

Java exceptions are `Result`/`Outcome` error values (`Wrappers`). Unsolved
cells read as the sentinel 0 (see Findings). Where a method is missing from
the Java files but called elsewhere, its contract is taken from its call sites
and tests:

- `Grid.getRowCands`, `getColumnCands`, `getBoxCands` and `getCandsMapping`
  count only unsolved cells, as the tests expect.
- The present private `Grid.getCands(List)` behind `numCands*` counts every
  cell, as written.
- `hasDuplicate`, `numSolved`, `isSolved()`, `clone`, `equals`,
  `canSolveSimple`, `getSeenCells` and `getCells` are given contracts the same
  way.
- On `Cell`, `getCands`, `getRow`, `getColumn`, `getCoord` and
  `setCandidates` are called but not defined. `Cell.Cands`, the grid's
  coordinate bookkeeping and `Cell.SetCandidates` stand for them, with
  contracts from their call sites.

## Model

| member | source | states |
|---|---|---|
| Cells.InOrder | src/Main/Cell.java:110-112 | a cell's candidates are visited in increasing order, each once, and exactly the candidates are visited |
| Cells.ValueOf | src/Main/Cell.java:98-103 | a solved cell's value is its only candidate; an unsolved cell reads as the sentinel 0 |
| Cells.ValueOfInjective | src/Main/Cell.java:98-103 | two solved cells have the same value exactly when they have the same candidate set |
| Cells.Cell.constructor | src/Main/Cell.java:21-24 | a new cell holds exactly the candidates 1..9, has size 9 and is not solved |
| Cells.Cell.OfValue | src/Main/Cell.java:39-43 | a value outside 1..9 is refused (IllegalArgumentException); otherwise the cell holds exactly that value and is solved to it |
| Cells.Cell.Solve | src/Main/Cell.java:49-55 | solving succeeds iff the value is a candidate, leaving exactly that candidate; a non-candidate is refused with the cell unchanged |
| Cells.Cell.Remove | src/Main/Cell.java:62-66 | the answer is whether the value was a candidate; afterwards the value is gone and every other candidate is kept; emptying the last candidate is the source's exception, reported as NoCandidatesLeft with the cell kept |
| Cells.Cell.Size | src/Main/Cell.java:81-83 | the number of candidates lies in 1..9 and is 1 exactly when the cell is solved |
| Cells.Cell.Value | src/Main/Cell.java:98-103 | the value is a digit exactly when the cell is solved, in which case it is the only candidate; otherwise 0 |
| Cells.Cell.ValueAsWritten | src/Main/Cell.java:98-103 | getVal as written: the only candidate of a solved cell, -1 for an unsolved cell |
| Cells.Cell.SetCandidates | src/Main/Permuter.java:287-289 | the cell takes exactly the given candidate set |
| Geometry.CoordBijection | src/Main/Grid.java:214-216 | row*9+column maps [0,9)×[0,9) into [0,81) and row and column are recovered from it |
| Geometry.CoordInverse | src/Main/Grid.java:214-216 | every index in [0,81) is row*9+column of its own row and column |
| Geometry.RowCoordsMembers | src/Main/Grid.java:169-175 | the row list holds exactly the cells of that row |
| Geometry.ColumnCoordsMembers | src/Main/Grid.java:182-188 | the column list holds exactly the cells of that column |
| Geometry.BoxCoordsSound | src/Main/Grid.java:196-206 | every cell of the box list shares the 3×3 box of (row, column) |
| Geometry.BoxCoordsComplete | src/Main/Grid.java:196-206 | every cell sharing the box of (row, column) is in the box list |
| Geometry.SeenCoords | src/Main/Solver.java:508-515 | getSeenCells lists exactly the cells sharing a row, column or box with (row, column), other than itself |
| Geometry.PeerGroupsMembers | src/Main/Solver.java:123-134 | the row, column and box through a cell hold exactly that cell and the cells it sees |
| Grids.Grid.constructor | src/Main/Grid.java:12-17 | a new grid has 81 distinct cells, each holding all nine candidates |
| Grids.Grid.GetCell | src/Main/Grid.java:214-216 | the cell for (row, column) is the one stored at index row*9+column |
| Grids.Grid.SolveCell | src/Main/Grid.java:25-27 | solving succeeds iff the value is a candidate; only the addressed cell changes, to exactly that value |
| Grids.Grid.RemoveCand | src/Main/Grid.java:67-69 | true iff the value was a candidate of the cell; only that cell changes, losing exactly that value; emptying the last candidate is the source's exception, reported as NoCandidatesLeft with the board kept |
| Grids.Grid.GetCands | src/Main/Grid.java:35-37 | the candidate set of (row, column) |
| Grids.Grid.GetVal | src/Main/Grid.java:45-47 | 0 exactly when the cell is unsolved; otherwise the cell holds exactly that value |
| Grids.Grid.IsSolvedAt | src/Main/Grid.java:55-57 | true iff the cell holds a single digit |
| Grids.Grid.GetVals | src/Main/Grid.java:104-111 | the set of values of the solved cells of the list |
| Grids.SolvedValuesMembers | src/Main/Grid.java:104-111 | v is returned exactly when some cell of the list is solved to v |
| Grids.SolvedValuesNone | src/Test/Java/GridTest.java:114-160 | on a board with no solved cell, every row, column and box has no solved value |
| Grids.Grid.GetRow | src/Main/Grid.java:76-78 | the solved values of the row |
| Grids.Grid.GetColumn | src/Main/Grid.java:85-87 | the solved values of the column |
| Grids.Grid.GetBox | src/Main/Grid.java:95-97 | the solved values of the box of (row, column) |
| Grids.Grid.Frequencies | src/Main/Grid.java:151-162 | the map has keys exactly 1..9, and each digit maps to the number of listed cells carrying it |
| Grids.FrequencyBound | src/Main/Grid.java:151-162 | a count never exceeds the number of cells counted |
| Grids.FrequencyFull | src/Test/Java/GridTest.java:163-180 | on cells holding all nine candidates every digit is counted once per cell |
| Grids.FrequencyAllSolved | src/Test/Java/GridTest.java:182-186 | solved cells contribute nothing to the unsolved-only counts |
| Grids.FrequencyPositive | src/Main/Grid.java:151-162 | a digit's count is positive exactly when a counted cell carries it |
| Grids.Grid.NumCandsRow | src/Main/Grid.java:119-121 | the digit counts over all nine cells of the row, each at most 9 |
| Grids.Grid.NumCandsColumn | src/Main/Grid.java:129-131 | the digit counts over all nine cells of the column, each at most 9 |
| Grids.Grid.NumCandsBox | src/Main/Grid.java:140-142 | the digit counts over all nine cells of the box, each at most 9 |
| Grids.Grid.GetRowCands | src/Main/Solver.java:162-166 | the digit counts over the unsolved cells of the row |
| Grids.Grid.GetColumnCands | src/Main/Solver.java:162-166 | the digit counts over the unsolved cells of the column |
| Grids.Grid.GetBoxCands | src/Main/Solver.java:319-321 | the digit counts over the unsolved cells of the box |
| Grids.Grid.GetCandsMapping | src/Main/Solver.java:525-535 | the digit counts over the unsolved cells of any list of cells |
| Grids.SolvedCountFull | src/Test/Java/GridTest.java:257-288 | all cells are solved exactly when the solved count reaches their number |
| Grids.SolvedCountNone | src/Test/Java/GridTest.java:257-288 | a board with no solved cell counts 0 |
| Grids.Grid.NumSolved | src/Main/Generator.java:11-20 | the number of solved cells, 81 exactly when every cell is solved |
| Grids.Grid.HasDuplicate | src/Test/Java/GridTest.java:290-337 | true iff two solved cells that see each other hold the same value |
| Grids.Grid.IsSolved | src/Main/Generator.java:99-113 | true iff all 81 cells are solved and no two peers share a value |
| Grids.Grid.EqualsBoards | src/Main/Generator.java:79 | two grids are equal iff every cell has the same candidates |
| Grids.Grid.CanSolveSimple | src/Test/Java/GridTest.java:339-363 | true iff the value is a candidate and no cell seeing (row, column) is solved to it |
| Grids.Grid.Clone | src/Main/Generator.java:29-55 | a new grid of new cells with the same board, sharing nothing with the original |
| Grids.ShrinkTotalCands | src/Main/Solver.java:45-66 | shrinking a board never adds candidates, and any change removes some: the solver's termination measure |
| QueueSets.AppendedProperties | src/Main/QueueSet.java:84-90 | addAll appends exactly the new elements, each once, in order of first occurrence |
| QueueSets.QueueSet.constructor | src/Main/QueueSet.java:17-20 | a new queue is empty |
| QueueSets.QueueSet.Size | src/Main/QueueSet.java:24-26 | the queue length, which equals the number of distinct queued elements |
| QueueSets.QueueSet.IsEmptyMeansNoElements | src/Main/QueueSet.java:29-31 | the queue is empty exactly when no element is queued |
| QueueSets.QueueSet.Contains | src/Main/QueueSet.java:34-36 | true iff the element is currently queued |
| QueueSets.QueueSet.Add | src/Main/QueueSet.java:65-71 | true iff the element was not queued, and then it is appended; otherwise nothing changes |
| QueueSets.QueueSet.AddAll | src/Main/QueueSet.java:84-90 | appends the new elements in order of first occurrence; true iff at least one was new |
| QueueSets.QueueSet.Remove | src/Main/QueueSet.java:113-117 | returns and drops the oldest element, which may then be queued again; fails on an empty queue |
| QueueSets.QueueSet.Peek | src/Main/QueueSet.java:130-132 | the oldest element without any change, or nothing on an empty queue |
| StackSets.StackSet.constructor | src/Main/StackSet.java:7-10 | a new stack has no layer and an empty union |
| StackSets.StackSet.Push | src/Main/StackSet.java:12-20 | the union gains the pushed integers, and the new layer is exactly those not already present |
| StackSets.StackSet.Pop | src/Main/StackSet.java:22-26 | removes exactly the top layer from the union; fails on an empty stack |
| StackSets.StackSet.Size | src/Main/StackSet.java:28-30 | the number of layers, not of integers |
| StackSets.StackSet.AsSet | src/Main/StackSet.java:32-34 | the union of all layers, whose size is the sum of the disjoint layers' sizes |
| StackSets.PushThenPop | src/Main/StackSet.java:12-26 | a push followed by a pop restores the stack and the union |
| StackSets.DisjointUnionSize | src/Main/StackSet.java:12-20 | pairwise-disjoint layers have a union as large as their sizes added up |
| Solutions.SolvedBoardSolution | src/Main/Generator.java:11-20 | the digits of a board that isSolved() accepts form a solution that board admits |
| Solutions.SolvedRunUnique | src/Main/Solver.java:45-66 | a sound run ending on a solved board has found the only solution the starting board admits |
| Solutions.GroupHolds | src/Main/Solver.java:178-193 | every digit occurs in every row, column and box of a solution |
| Propagation.RemovalRefuted | src/Main/Solver.java:82-91 | emptying a cell happens only on a board with no solution |
| Propagation.SolveRefuted | src/Main/Solver.java:109-112 | solving a cell to a non-candidate happens only on a board with no solution |
| Propagation.PropagatedKept | src/Main/Solver.java:123-151 | every rule keeps every solved cell's value eliminated from its peers |
| Propagation.QueueKept | src/Main/Solver.java:82-91 | a run that changed no cell queued nothing |
| Solvers.Solver.constructor | src/Main/Solver.java:32-39 | every coordinate starts out queued, in order, and no cell is recorded |
| Solvers.Solver.Solve | src/Main/Solver.java:45-66 | the run only shrinks the board and loses no solution; true iff the board is then solved, and that board is the unique solution; false only with an empty queue |
| Solvers.Solver.SolveTurn | src/Main/Solver.java:47-64 | one turn removes a candidate or shortens the queue, and loses no solution |
| Solvers.Solver.ApplyRules | src/Main/Solver.java:52-62 | the rules in the source's order keep the board propagated and lose no solution |
| Solvers.Solver.RunNakedSingle | src/Main/Solver.java:68-76 | afterwards every solved cell's value is gone from the cells it sees, no solution is lost, and only changed cells are queued |
| Solvers.Solver.NakedSingle | src/Main/Solver.java:123-134 | the first visit of a solved cell records it and eliminates its value from all peers; later visits and unsolved cells change nothing |
| Solvers.Solver.RemoveFromItr | src/Main/Solver.java:142-151 | the value leaves every unsolved cell of the list; true iff something changed |
| Solvers.Solver.RemoveAndCallNaked | src/Main/Solver.java:82-91 | true iff the value was a candidate; the cell is queued and, once solved, eliminated; emptying the last candidate is the source's exception, reported as NoCandidatesLeft with the board, the removal lists and the queue kept |
| Solvers.Solver.SolveAndCallNaked | src/Main/Solver.java:109-112 | solving succeeds iff the value is a candidate; the cell ends solved to it and its value is eliminated from its peers |
| Solvers.Solver.RemoveAllAndCallNaked | src/Main/Solver.java:97-103 | every listed digit leaves the cell; true iff the board changed |
| Solvers.Solver.HiddenSingle | src/Main/Solver.java:162-167 | no solution of a propagated board is lost; a digit counted once among the unsolved cells of the row forces a change |
| Solvers.Solver.HiddenSingleGroup | src/Main/Solver.java:178-193 | a change happens iff some digit is counted once among the group's unsolved cells; the solved cells lose no solution |
| Solvers.Solver.KeepCandRange | src/Main/Solver.java:597-605 | exactly the unsolved cells whose candidate count lies in [min, max], in their original order |
| Deductions.KeepRangeMembers | src/Main/Solver.java:597-605 | keepCandRange keeps exactly the unsolved cells with min to max candidates, and no more cells than it is given |
| Solvers.Solver.HasEqualCell | src/Main/Solver.java:280 | List.contains on cells: true iff some listed cell has the same candidates |
| Solvers.Solver.NakedCandidates | src/Main/Solver.java:205-210 | naked sets of two to five cells lose no solution; true iff the board changed |
| Solvers.Solver.NakedCandidateN | src/Main/Solver.java:222-227 | the naked-set rule on row, column and box loses no solution; true iff the board changed |
| Solvers.Solver.NakedSetGroup | src/Main/Solver.java:238-249 | with fewer than n cells of 2..n candidates or fewer than n+1 unsolved cells, false and nothing changes; otherwise no solution is lost |
| Solvers.Solver.NakedSetSearch | src/Main/Solver.java:264-294 | the recursive search over n-cell choices loses no solution and restores the stack of layers |
| Solvers.Solver.NakedSetEliminate | src/Main/Solver.java:277-283 | the naked set's digits leave the other unsolved cells of the group only; no solution is lost |
| Deductions.NakedSetSound | src/Main/Solver.java:277-283 | n mutually seeing cells holding only n digits take all of them, so a cell seeing them all holds none |
| Solvers.Solver.Pointing | src/Main/Solver.java:319-355 | removals outside the occurrence columns (rows) of a digit confined to one row (column) of the box lose no solution of a propagated board |
| Deductions.PointingSound | src/Main/Solver.java:319-355 | a digit whose box holders lie in one row (column) is in no other cell of that row (column) in any solution |
| Solvers.Solver.PointingLine | src/Main/Solver.java:330-352 | with a single line, the digit leaves exactly that line's cells outside the crossing indices; otherwise nothing changes |
| Solvers.Solver.Claiming | src/Main/Solver.java:366-370 | claiming on row then column loses no solution of a propagated board; true iff the board changed |
| Solvers.Solver.ClaimingGroup | src/Main/Solver.java:381-408 | a digit whose group holders lie in one box leaves the rest of that box; no solution of a propagated board is lost |
| Deductions.ClaimingSound | src/Main/Solver.java:381-408 | a digit whose holders in a line lie in one box is in no other cell of that box in any solution |
| Solvers.Solver.XWing | src/Main/Solver.java:420-428 | X-wings on rows, then on columns through the quarter turn and the merge, lose no solution of a propagated board |
| Solvers.Solver.XWingTurned | src/Main/Solver.java:423-427 | the column case found on the turned copy and merged back loses no solution |
| Symmetry.TurnedSound | src/Main/Solver.java:423-427 | a sound run on the turned board, turned back, is a sound run on the board |
| Symmetry.QuarterTurnSees | src/Main/Permuter.java:73-81 | the quarter turn maps cells that see each other to cells that see each other |
| Solvers.Solver.MergeGrid | src/Main/Solver.java:482-498 | each cell loses exactly the candidates the other grid lacks there; the other grid is untouched; true iff the board changed |
| Deductions.MergeKept | src/Main/Solver.java:482-498 | merging with a board that keeps every solution loses none |
| Solvers.Solver.XWingRows | src/Main/Solver.java:438-472 | removing the digit from the two pattern columns outside the two base rows loses no solution of a propagated board |
| Deductions.XWingSound | src/Main/Solver.java:438-472 | a digit counted twice in two rows on the same two columns is in no other row of those columns in any solution |
| Solvers.Solver.XWingPartner | src/Main/Solver.java:450-468 | one partner row: removals happen only for a real X-wing and lose no solution |
| Solvers.Solver.XYWing | src/Main/Solver.java:508-515 | every pivot seen from (row, column) is tried; no solution is lost; true iff the board changed |
| Solvers.Solver.XYWingOneCell | src/Main/Solver.java:525-580 | the XY-wing through the pivot loses no solution; true iff the board changed |
| Solvers.Solver.XYWingDigit | src/Main/Solver.java:541-576 | the shared digit leaves only cells that see both pincers (corrected list) |
| XYWings.WingExcludes | src/Main/Solver.java:525-580 | a cell seeing both pincers of an XY-wing holds the shared digit in no solution |
| XYWings.WingRemovalSound | src/Main/Solver.java:525-580 | removing the shared digit from such a cell loses no solution |
| XYWings.Intersection | src/Main/Solver.java:558-567 | the cells listed in both lists, compared by coordinate |
| XYWings.EqualIntersection | src/Main/Solver.java:558-567 | as written: the cells of one list whose candidates equal those of some cell of the other |
| XYWings.PatternSolution | src/Main/Solver.java:558-567 | the fixed board used by the finding is a solution |
| XYWings.WingBoardLosesSolution | src/Main/Solver.java:558-567 | with List.contains by Cell.equals, a cell not seeing a pincer is kept for removal although a solution puts the digit there |
| Generators.IsValidPlacement | src/Main/Generator.java:150-171 | true iff the value appears nowhere in the row, the column and the box of (row, column) |
| Generators.BruteForce | src/Main/Generator.java:120-139 | true gives the least completion of the input; false restores the input and means no completion exists |
| Generators.FillFirstZero | src/Main/Generator.java:121-135 | the digit loop at the first zero tries 1..9 in order and undoes failed writes |
| Generators.Put | src/Main/Generator.java:127 | writing one entry changes only that entry |
| Generators.FullCompletes | src/Main/Generator.java:120-139 | a board without zeros is its own and only completion |
| Generators.CompletionSolution | src/Test/Java/GeneratorTest.java:55-64 | a completion of givens without clashes is a complete duplicate-free grid |
| Generators.ToIntGrid | src/Main/Generator.java:100-105 | the int grid holds every cell's value, 0 for unsolved cells |
| Generators.BruteForceGrid | src/Main/Generator.java:99-113 | as written: on success every cell is solved to a completion of the old digits; with no completion it fails |
| Generators.BruteForceChecked | src/Main/Generator.java:99-113 | corrected: with no completion the grid is left unchanged and false is returned |
| Generators.ToIntGridAsWritten | src/Main/Generator.java:100-105 | with getVal as written the int grid holds -1 for unsolved cells |
| Generators.MarkedNoZero | src/Main/Cell.java:98-103 | the -1-marked grid has no 0, and its entry at an unsolved cell is not a candidate there |
| Generators.BruteForceGridAsWritten | src/Main/Generator.java:99-113 | with getVal as written, any grid with an unsolved cell ends in IllegalStateException |
| Generators.SameSolutions | src/Main/Generator.java:62-66 | a sound shrinking run keeps exactly the solutions, so uniqueness is unchanged |
| Generators.DupNoSolution | src/Main/Generator.java:14-15 | a board with a duplicate admits no solution |
| Generators.SolvedUnique | src/Main/Generator.java:16-17 | a solved board without duplicates has exactly one solution |
| Generators.FillNoDup | src/Main/Generator.java:70-76 | solving an unsolved cell of a propagated, duplicate-free board to a candidate creates no duplicate |
| Generators.BranchSolution | src/Main/Generator.java:77-80 | a fully solved brute-forced branch holds a solution of the board |
| Generators.SlowBranch | src/Main/Generator.java:76-78 | true keeps a solved clone holding a solution that places v; as written, a branch whose digits have no completion raises; with the checked search, false means no solution places v there |
| Generators.SlowTry | src/Main/Generator.java:76-86 | false means two different solutions; as written, true means this branch is the kept clone, and a branch without a completion raises |
| Generators.SlowCell | src/Main/Generator.java:74-87 | false means two different solutions; true covers every candidate of the cell; as written it never answers true, and raises when the smallest candidate's branch has no completion |
| Generators.SlowStep | src/Main/Generator.java:73-88 | a solved cell is passed over; as written, the loops go on past a cell only when it is solved |
| Generators.SlowBranches | src/Main/Generator.java:70-90 | false means not unique; true with a kept branch means unique, and with none kept a solution would have to be the board itself; as written true means every cell was solved |
| Generators.SlowChecks | src/Main/Generator.java:65-91 | a duplicate answers false, a solved board true; true rests on a solution exactly when the board has one, and without one the board has no solution; as written true means the board was solved |
| Generators.IsValidSlow | src/Main/Generator.java:62-92 | as written: false means not unique; true means unique and solved by the naked singles; a board with one solution that the naked singles leave unsolved raises |
| Generators.IsValidSlowCorrected | src/Main/Generator.java:62-92 | corrected: true iff the board has exactly one solution |
| Generators.IsValid | src/Main/Generator.java:11-20 | an emptied cell means no solution; the duplicate and solved checks answer exactly whether the board has one solution |
| Generators.ValidChecks | src/Main/Generator.java:14-19 | a duplicate answers false and a solved board true, each exactly right about uniqueness |
| Generators.IsValidFrom | src/Main/Generator.java:29-55 | with every remaining cell solved the answer is true; false only when some cell from index on has two candidates |
| Generators.CellBranches | src/Main/Generator.java:33-52 | false only for a cell with at least two candidates |
| Permuters.ApplyAt | src/Main/Permuter.java:73-255 | each result cell is the input cell the transform reads from |
| Permuters.Involution | src/Main/Permuter.java:97-255 | every transform but the quarter turn, applied twice, gives back the board |
| Permuters.HalfTurn | src/Main/Permuter.java:217-225 | two quarter turns are the reflection through the centre |
| Permuters.ThreeQuarterTurns | src/Main/Permuter.java:88-90 | rotateCounterClockwise is three quarter turns |
| Permuters.RotationRoundTrip | src/Main/Permuter.java:73-90 | clockwise then counter-clockwise, and the reverse, restore the board |
| Permuters.RotateIsTransposeThenFlip | src/Main/Permuter.java:73-81 | the quarter turn is the transpose followed by a left-right flip |
| Permuters.SwapWithItself | src/Main/Permuter.java:132-210 | swapping a band, stack, row or column with itself changes nothing |
| Permuters.RowSwapFrame | src/Main/Permuter.java:157-190 | rows outside the two swapped bands or rows are unchanged |
| Permuters.ColumnSwapFrame | src/Main/Permuter.java:132-145 | columns outside the two swapped stacks or columns are unchanged |
| Permuters.CopyCell | src/Main/Permuter.java:287-289 | the target cell takes exactly the source's candidates |
| Permuters.RotateClockwiseGrid | src/Main/Permuter.java:73-81 | a fresh grid with result(r, c) = input(8-c, r); the input is untouched |
| Permuters.RotateCounterClockwiseGrid | src/Main/Permuter.java:88-90 | a fresh grid with result(r, c) = input(c, 8-r), undoing rotateClockwise |
| Permuters.FlipHorizontalGrid | src/Main/Permuter.java:97-105 | a fresh grid with result(8-r, c) = input(r, c) |
| Permuters.FlipVerticalGrid | src/Main/Permuter.java:112-120 | a fresh grid with result(r, 8-c) = input(r, c) |
| Permuters.SwapBoxColumnsGrid | src/Main/Permuter.java:132-145 | a fresh grid with the two stacks exchanged |
| Permuters.SwapBoxRowsGrid | src/Main/Permuter.java:157-170 | a fresh grid with the two bands exchanged |
| Permuters.SwapRowsInBoxRowGrid | src/Main/Permuter.java:181-190 | a fresh grid with the two rows of one band exchanged |
| Permuters.SwapColumnInBoxColumnGrid | src/Main/Permuter.java:201-210 | a fresh grid with the two columns of one stack exchanged |
| Permuters.ReflectOriginGrid | src/Main/Permuter.java:217-225 | a fresh grid with result(8-r, 8-c) = input(r, c) |
| Permuters.ReflectBottomTopDiagonalGrid | src/Main/Permuter.java:232-240 | a fresh grid with result(8-c, 8-r) = input(r, c) |
| Permuters.ReflectTopBottomDiagonalGrid | src/Main/Permuter.java:247-255 | a fresh grid with result(c, r) = input(r, c) |
| Permuters.ImageSize | src/Main/Permuter.java:264-280 | relabelling by a digit permutation keeps a candidate set valid and of the same size |
| Permuters.RelabelKeepsDuplicates | src/Main/Permuter.java:264-280 | relabelling keeps which cells are solved and whether the board has a duplicate |
| Permuters.ChangeNumbers | src/Main/Permuter.java:264-280 | a fresh grid whose every cell holds the input cell's candidates renamed by the permutation |

## Left out

- `Permuter.permute` and the `Random`/`Collections.shuffle` in `changeNumbers`: randomness; `Permuters.ChangeNumbers` takes the digit permutation as a parameter.
- `Solver.checkRep` and the `DEBUG` flag: a debug-only assertion whose oracle is the brute-force solver.
- `hiddenCandidatePair`, `hiddenCandidates`, `hiddenCandidateN`, `basicFish` and `forcingChains`: stubs that always return false and are never called by `solve`.
- `SolverFunction`: an interface with no logic.
- `Grid.toString`, the grid iterators as objects and the text puzzle loading of the tests: display and I/O. An iterator over a group is its coordinate list.
- `QueueSet.iterator`, `toArray`, `remove(Object)`, `containsAll`, `removeAll`, `retainAll`, `clear`, `offer`, `poll` and `element`: unsupported operations or wrappers not used by the solver.
- The exceptions of `catch (Throwable)` in the recursive `isValid`: the branch that fails is an error value.
- `Generator.isValidSlow` calls `runNakedSingle()` with no argument; the model passes the solver's own queue.
- Generators.IsValid: the answer of the recursive branch search is not tied to the number of solutions. The model proves the early answers exact and that false means some cell had two accepted branches. An accepted branch need not hold a solution, so "true iff exactly one solution" is not proved.
- Generators.IsValidFrom: states only the two facts above, for the same reason.
- Generators.CellBranches: states only that false needs a cell with two candidates, for the same reason.
- Solvers.Solver.Solve: loses no solution and is exact when it reports solved; a false answer does not claim the board has several solutions.
- Solvers.Solver.HiddenSingle: states the change guarantee for the row only; the column and box follow the same pattern.
- Solvers.Solver.NakedCandidates: does not state which cells change, only that the board changes iff the answer is true and that no solution is lost.
- Solvers.Solver.Pointing, Solvers.Solver.Claiming, Solvers.Solver.XWing, Solvers.Solver.XYWing: state soundness and the change flag, not the exact set of removed candidates; the exact removals are stated on their per-digit methods and lemmas.
- Generators.IsValidSlow: the source's promise "true iff exactly one solution" does not hold as written (see Findings); the model states what it does answer, and Generators.IsValidSlowCorrected keeps the promise.
- Cells.Cell.Remove: emptying a cell's last candidate makes Java's checkRep throw after the candidate is already gone; the model reports NoCandidatesLeft and keeps the cell, because a cell without candidates is not a valid cell here.
- Grids.Grid.RemoveCand: the same. `Generator.isValid` runs the solver on the caller's own grid (src/Main/Generator.java:11-13), so a caller that catches the exception finds the emptied cell in Java and the kept one in the model.
- Solvers.Solver.RemoveAndCallNaked: the same; the board, the removal lists and the queue are kept, where Java has already emptied the cell.
- Grids.Grid.GetCands, Cells.Cell.SetCandidates: take and give value snapshots of the candidate set. `Cell.getCandidates` (src/Main/Cell.java:110-112) returns a live unmodifiable view; if the missing `getCands` returned such a view, the loop of `mergeGrid` (src/Main/Solver.java:486-493) would remove from the set it iterates and throw ConcurrentModificationException. Aliasing between a returned set and its cell is not modelled.
- Integer widths: Dafny's unbounded int stands in for Java's int; every value stays in 0..81 (digits, indices, counts).

## Findings

| source | as written | input that shows it | evidently intended | confidence | as-written member | corrected member |
|---|---|---|---|---|---|---|
| src/Main/Generator.java:99-113 | when the int[][] search fails, the array still holds 0 at unsolved cells and `solveCell(r, c, 0)` throws IllegalStateException | row 0 holding 1..6 in columns 0..5 and cell (1, 8) solved to 9: no completion exists | answer false and leave the grid as it was | not executed | Generators.BruteForceGrid | Generators.BruteForceChecked |
| src/Main/Generator.java:62-92 | isValidSlow never answers true on a board the naked singles leave unsolved. The first unsolved cell has two candidates; a branch whose digits have no completion makes bruteForceSolver(Grid) throw (row 1), and two completed branches differ in that cell, so the answer is false. Behind this sits a latent defect: with the brute force fixed, the unconditional `return true` at line 91 would answer true when no branch kept a solution, that is on a board with no solution | any board with exactly one solution that the naked singles leave unsolved: every branch but one has no solution | brute-force each branch without throwing, and answer true only when a branch kept a solution | not executed | Generators.IsValidSlow | Generators.IsValidSlowCorrected |
| src/Main/Solver.java:558-567 | the pincers' common peers are found with `List.contains` and `removeAll` on cells, which compare cells by their candidates, so a cell that does not see a pincer can lose the shared digit (this rests on `Cell.equals` at src/Main/Cell.java:119-125; the Cell.java shown may be older than the one this Solver was written against) | XYWings.WingBoard: pivot (0, 0) on {1, 4}, pincers (0, 1) on {1, 2} and (1, 0) on {2, 4}; cell (1, 7) is kept and the solution XYWings.Pattern puts 2 there | intersect the seen cells by coordinate | not executed | XYWings.WingBoardLosesSolution | Solvers.Solver.XYWingDigit |
| src/Main/Cell.java:98-103 | getVal returns -1 for an unsolved cell, so bruteForceSolver(Grid) builds an int grid with no 0, searches nothing, and `solveCell(r, c, -1)` throws | a new Grid | 0 as the unsolved sentinel, as the tests and the brute-force solver expect; the tests' expectation suggests a newer Cell.java than the one shown | not executed | Generators.BruteForceGridAsWritten | Generators.BruteForceGrid |
