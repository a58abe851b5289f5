/**
 * The brute-force solver and the two uniqueness checks
 * (src/Main/Generator.java). The brute-force solver fills in the zeros of a
 * 9x9 int array in place by backtracking. The checks clone the grid, solve
 * one cell of each clone to each of its candidates and run a solver on the
 * clone. An exception that leaves a method of the source is an `Err`
 * result here; one that isValid's search catches makes it skip the branch.
 */
module Generators {
  import opened Wrappers
  import opened Geometry
  import opened Cells
  import opened Grids
  import opened Solutions
  import opened Propagation
  import opened Solvers

  /*** Digit boards: the int[][] of the brute-force solver, in row-major order. ***/

  /** The 81 entries of a 9x9 array, row by row. */
  ghost function Entries(a: array2<int>): (b: seq<int>)
    reads a
    requires a.Length0 == 9 && a.Length1 == 9
    ensures |b| == 81
  {
    seq(81, k requires 0 <= k < 81 reads a => a[k / 9, k % 9])
  }

  /** isValidPlacement: v occurs nowhere in the row, the column or the box of cell k. */
  predicate Fits(b: seq<int>, v: int, k: int)
    requires |b| == 81
  {
    forall p :: 0 <= p < 81 && (RowOf(p) == RowOf(k) || ColumnOf(p) == ColumnOf(k) || SameBox(p, k)) ==> b[p] != v
  }

  /** Two cells that see each other hold the same nonzero entry. */
  predicate Clash(b: seq<int>, j: int, k: int)
    requires |b| == 81
  {
    0 <= j < 81 && 0 <= k < 81 && Sees(j, k) && b[j] != 0 && b[j] == b[k]
  }

  /**
   * c fills in b: a nonzero entry of b is kept, a zero becomes a digit, and
   * two cells of c clash only where they already clashed in b.
   */
  ghost predicate Completes(b: seq<int>, c: seq<int>) {
    |b| == 81 && |c| == 81 &&
    (forall k :: 0 <= k < 81 ==> if b[k] == 0 then IsDigit(c[k]) else c[k] == b[k]) &&
    forall j, k :: Clash(c, j, k) ==> Clash(b, j, k)
  }

  /** x comes no later than y in row-major lexicographic order. */
  ghost predicate LexLeq(x: seq<int>, y: seq<int>) {
    |x| == |y| && (x == y || exists i :: 0 <= i < |x| && x[..i] == y[..i] && x[i] < y[i])
  }

  /** The number of zero entries: the measure that the brute-force recursion lowers. */
  function Zeros(b: seq<int>): nat {
    if b == [] then 0 else Zeros(b[..|b| - 1]) + (if b[|b| - 1] == 0 then 1 else 0)
  }

  /** Filling in a zero leaves one zero fewer. */
  lemma {:induction false} ZerosFill(b: seq<int>, k: int, v: int)
    requires 0 <= k < |b| && b[k] == 0 && v != 0
    ensures Zeros(b[k := v]) < Zeros(b)
  {
    var n := |b| - 1;
    if k == n {
      assert b[k := v][..n] == b[..n];
    } else {
      assert b[k := v][..n] == b[..n][k := v];
      ZerosFill(b[..n], k, v);
    }
  }

  /*** Completions. ***/

  /** A completion of b with the zero k filled in by a digit that fits there is a completion of b. */
  lemma FillCompletes(b: seq<int>, k: int, v: int, c: seq<int>)
    requires |b| == 81 && 0 <= k < 81 && b[k] == 0 && IsDigit(v) && Fits(b, v, k)
    requires Completes(b[k := v], c)
    ensures Completes(b, c)
  {
    var b' := b[k := v];
    forall j, i | Clash(c, j, i) ensures Clash(b, j, i) {
      assert Clash(b', j, i);
      FitNoClash(b, k, v, j, i);
    }
  }

  /** A digit that fits at the zero k clashes with nothing once written there. */
  lemma FitNoClash(b: seq<int>, k: int, v: int, j: int, i: int)
    requires |b| == 81 && 0 <= k < 81 && b[k] == 0 && IsDigit(v) && Fits(b, v, k)
    requires Clash(b[k := v], j, i)
    ensures j != k && i != k
  {
  }

  /** A completion of b completes b with the zero k filled in by the completion's own digit. */
  lemma CompletesFill(b: seq<int>, k: int, c: seq<int>)
    requires Completes(b, c) && 0 <= k < 81 && b[k] == 0
    ensures Completes(b[k := c[k]], c)
  {
    var b' := b[k := c[k]];
    forall j, i | Clash(c, j, i) ensures Clash(b', j, i) {
      assert Clash(b, j, i);
    }
  }

  /** No completion of b puts, at the zero k, a digit that does not fit there. */
  lemma MisfitExcluded(b: seq<int>, k: int, v: int, c: seq<int>)
    requires |b| == 81 && 0 <= k < 81 && b[k] == 0 && v != 0 && !Fits(b, v, k)
    requires Completes(b, c)
    ensures c[k] != v
  {
    var p :| 0 <= p < 81 && (RowOf(p) == RowOf(k) || ColumnOf(p) == ColumnOf(k) || SameBox(p, k)) && b[p] == v;
    assert Sees(k, p) && c[p] == v;
    assert !Clash(b, k, p);
    assert !Clash(c, k, p);
  }

  /**
   * Of two completions of b that differ first at the first zero k of b, the
   * one with the smaller digit there comes first.
   */
  lemma LexAtFirstZero(b: seq<int>, k: int, e: seq<int>, y: seq<int>)
    requires Completes(b, e) && Completes(b, y) && 0 <= k < 81
    requires forall i :: 0 <= i < k ==> b[i] != 0
    requires e[k] < y[k]
    ensures LexLeq(e, y)
  {
    assert e[..k] == y[..k];
  }

  /** A board without zeros is its own and only completion. */
  lemma FullCompletes(b: seq<int>)
    requires |b| == 81 && forall i :: 0 <= i < 81 ==> b[i] != 0
    ensures Completes(b, b)
    ensures forall y :: Completes(b, y) ==> y == b
  {
    forall y | Completes(b, y) ensures y == b {
      assert forall i :: 0 <= i < 81 ==> y[i] == b[i];
    }
  }

  /** A zero that no digit from 1 to 9 can fill leaves b without a completion. */
  lemma NoDigitNoCompletion(b: seq<int>, k: int)
    requires |b| == 81 && 0 <= k < 81 && b[k] == 0
    requires forall x :: Completes(b, x) ==> !(1 <= x[k] < 10)
    ensures forall x :: !Completes(b, x)
  {
    forall x ensures !Completes(b, x) {
    }
  }

  /** A solution that keeps the nonzero entries of b completes b. */
  lemma SolutionCompletes(b: seq<int>, sol: seq<int>)
    requires |b| == 81 && IsSolution(sol)
    requires forall k :: 0 <= k < 81 && b[k] != 0 ==> sol[k] == b[k]
    ensures Completes(b, sol)
  {
  }

  /** A completion of a board of digits and zeros without clashes is a solution. */
  lemma CompletionSolution(b: seq<int>, c: seq<int>)
    requires Completes(b, c)
    requires forall k :: 0 <= k < 81 ==> b[k] == 0 || IsDigit(b[k])
    requires forall j, k :: !Clash(b, j, k)
    ensures IsSolution(c)
  {
    forall j, k | 0 <= j < 81 && 0 <= k < 81 && Sees(j, k) ensures c[j] != c[k] {
      assert !Clash(c, j, k);
    }
  }

  /*** The brute-force solver on an int[9][9]. ***/

  /** Rows (or columns) x and y are in the same band exactly when x lies in the three rows from y - y % 3. */
  lemma BandRange(x: int, y: int)
    requires IsIndex(x) && IsIndex(y)
    ensures x / 3 == y / 3 <==> y - y % 3 <= x < y - y % 3 + 3
  {
  }

  /** Entry (r, c) of the array is entry r * 9 + c of the board. */
  lemma EntryAt(a: array2<int>, r: int, c: int)
    requires a.Length0 == 9 && a.Length1 == 9 && IsIndex(r) && IsIndex(c)
    ensures IsCoord(Coord(r, c)) && Entries(a)[Coord(r, c)] == a[r, c]
  {
    CoordBijection(r, c);
  }

  /** v found in the row, the column or the box of (row, column) does not fit there. */
  lemma NotFits(b: seq<int>, v: int, row: int, column: int, r: int, c: int)
    requires |b| == 81 && IsIndex(row) && IsIndex(column) && IsIndex(r) && IsIndex(c)
    requires r == row || c == column || (row - row % 3 <= r < row - row % 3 + 3 && column - column % 3 <= c < column - column % 3 + 3)
    requires b[Coord(r, c)] == v
    ensures !Fits(b, v, Coord(row, column))
  {
    CoordBijection(r, c);
    CoordBijection(row, column);
    BandRange(r, row);
    BandRange(c, column);
  }

  /** v missing from the column, the row and the box of (row, column) fits there. */
  lemma FitsFromScans(b: seq<int>, v: int, row: int, column: int)
    requires |b| == 81 && IsIndex(row) && IsIndex(column)
    requires forall r :: 0 <= r < 9 ==> b[Coord(r, column)] != v
    requires forall c :: 0 <= c < 9 ==> b[Coord(row, c)] != v
    requires forall r, c :: row - row % 3 <= r < row - row % 3 + 3 && column - column % 3 <= c < column - column % 3 + 3 ==>
      b[Coord(r, c)] != v
    ensures Fits(b, v, Coord(row, column))
  {
    var k := Coord(row, column);
    CoordBijection(row, column);
    forall p | 0 <= p < 81 && (RowOf(p) == RowOf(k) || ColumnOf(p) == ColumnOf(k) || SameBox(p, k))
      ensures b[p] != v
    {
      CoordInverse(p);
      BandRange(RowOf(p), row);
      BandRange(ColumnOf(p), column);
    }
  }

  /**
   * isValidPlacement: scans the column, then the row, then the box of
   * (row, column) for cand.
   */
  method IsValidPlacement(a: array2<int>, cand: int, row: int, column: int) returns (ok: bool)
    requires a.Length0 == 9 && a.Length1 == 9 && IsIndex(row) && IsIndex(column)
    ensures ok <==> Fits(Entries(a), cand, Coord(row, column))
  {
    ghost var b := Entries(a);
    for r := 0 to 9
      invariant forall r' :: 0 <= r' < r ==> b[Coord(r', column)] != cand
    {
      EntryAt(a, r, column);
      if a[r, column] == cand {
        NotFits(b, cand, row, column, r, column);
        return false;
      }
    }
    for c := 0 to 9
      invariant forall c' :: 0 <= c' < c ==> b[Coord(row, c')] != cand
    {
      EntryAt(a, row, c);
      if a[row, c] == cand {
        NotFits(b, cand, row, column, row, c);
        return false;
      }
    }
    var br := row - row % 3;
    var bc := column - column % 3;
    for r := br to br + 3
      invariant forall r', c' :: br <= r' < r && bc <= c' < bc + 3 ==> b[Coord(r', c')] != cand
    {
      for c := bc to bc + 3
        invariant forall c' :: bc <= c' < c ==> b[Coord(r, c')] != cand
      {
        EntryAt(a, r, c);
        if a[r, c] == cand {
          NotFits(b, cand, row, column, r, c);
          return false;
        }
      }
    }
    FitsFromScans(b, cand, row, column);
    return true;
  }

  /**
   * bruteForceSolver(int[][]): fills the first zero in row-major order with
   * the first digit from 1 to 9 that fits and recurses, and puts the zero
   * back when the recursion fails. It succeeds exactly when the array has a
   * completion; it then leaves a completion in the array, and otherwise
   * leaves the array as it found it.
   */
  method BruteForce(a: array2<int>) returns (solved: bool)
    requires a.Length0 == 9 && a.Length1 == 9
    modifies a
    ensures solved ==> Completes(old(Entries(a)), Entries(a))
    ensures solved ==> forall y :: Completes(old(Entries(a)), y) ==> LexLeq(Entries(a), y)
    ensures !solved ==> Entries(a) == old(Entries(a)) && forall x :: !Completes(old(Entries(a)), x)
    decreases Zeros(Entries(a)), 1
  {
    for r := 0 to 9
      invariant unchanged(a)
      invariant forall k :: 0 <= k < 9 * r ==> Entries(a)[k] != 0
    {
      for c := 0 to 9
        invariant unchanged(a)
        invariant forall k :: 0 <= k < 9 * r + c ==> Entries(a)[k] != 0
      {
        EntryAt(a, r, c);
        if a[r, c] == 0 {
          solved := FillFirstZero(a, r, c);
          return;
        }
      }
    }
    FullCompletes(Entries(a));
    return true;
  }

  /** grid[r][c] = v: the board with entry r * 9 + c replaced. */
  method Put(a: array2<int>, r: int, c: int, v: int)
    requires a.Length0 == 9 && a.Length1 == 9 && IsIndex(r) && IsIndex(c)
    modifies a
    ensures Entries(a) == old(Entries(a))[Coord(r, c) := v]
  {
    ghost var b := Entries(a);
    a[r, c] := v;
    forall i | 0 <= i < 81 ensures Entries(a)[i] == b[Coord(r, c) := v][i] {
      CoordInverse(i);
      CoordBijection(r, c);
    }
  }

  /**
   * The digit loop of bruteForceSolver at the first zero (r, c): each digit
   * from 1 to 9 that isValidPlacement accepts is written and the rest of
   * the array brute-forced; the zero is restored when that fails.
   */
  method FillFirstZero(a: array2<int>, r: int, c: int) returns (solved: bool)
    requires a.Length0 == 9 && a.Length1 == 9 && IsIndex(r) && IsIndex(c) && a[r, c] == 0
    requires forall i :: 0 <= i < Coord(r, c) ==> Entries(a)[i] != 0
    modifies a
    ensures solved ==> Completes(old(Entries(a)), Entries(a))
    ensures solved ==> forall y :: Completes(old(Entries(a)), y) ==> LexLeq(Entries(a), y)
    ensures !solved ==> Entries(a) == old(Entries(a)) && forall x :: !Completes(old(Entries(a)), x)
    decreases Zeros(Entries(a)), 0
  {
    ghost var b := Entries(a);
    ghost var k := Coord(r, c);
    CoordBijection(r, c);
    for cand := 1 to 10
      invariant Entries(a) == b
      invariant forall x :: Completes(b, x) ==> !(1 <= x[k] < cand)
    {
      var fits := IsValidPlacement(a, cand, r, c);
      if fits {
        Put(a, r, c, cand);
        ZerosFill(b, k, cand);
        solved := BruteForce(a);
        if solved {
          FillCompletes(b, k, cand, Entries(a));
          forall y | Completes(b, y) ensures LexLeq(Entries(a), y) {
            if y[k] == cand {
              CompletesFill(b, k, y);
            } else {
              LexAtFirstZero(b, k, Entries(a), y);
            }
          }
          return;
        }
        Put(a, r, c, 0);
        assert b[k := cand][k := 0] == b;
        forall x | Completes(b, x) ensures x[k] != cand {
          CompletesFill(b, k, x);
        }
      } else {
        forall x | Completes(b, x) ensures x[k] != cand {
          MisfitExcluded(b, k, cand, x);
        }
      }
    }
    NoDigitNoCompletion(b, k);
    return false;
  }

  /*** bruteForceSolver(Grid). ***/

  /** A board with every cell solved to the matching entry of e. */
  lemma SolvedToValues(s: seq<set<int>>, e: seq<int>)
    requires WellFormed(s) && |e| == 81
    requires forall i :: 0 <= i < 81 ==> IsDigit(e[i]) && s[i] == {e[i]}
    ensures Values(s) == e && forall i :: 0 <= i < 81 ==> SolvedAt(s, i)
  {
    forall i | 0 <= i < 81 ensures Values(s)[i] == e[i] && SolvedAt(s, i) {
      ValueOfSolved(s[i], e[i]);
    }
  }

  /** A board of digits, none zero, that a search either completed or left as b completes b. */
  lemma FoundOrFull(b: seq<int>, e: seq<int>, found: bool)
    requires |b| == 81 && |e| == 81 && forall i :: 0 <= i < 81 ==> e[i] != 0
    requires found ==> Completes(b, e)
    requires !found ==> e == b
    ensures Completes(b, e)
  {
    FullCompletes(e);
  }

  /** The first loops of bruteForceSolver(Grid): a new int[9][9] holding Grid.getVal of every cell. */
  method ToIntGrid(grid: Grid) returns (a: array2<int>)
    requires grid.Valid()
    ensures fresh(a) && a.Length0 == 9 && a.Length1 == 9
    ensures Entries(a) == Values(grid.Cands())
  {
    ghost var s := grid.Cands();
    a := new int[9, 9]((i, j) => 0);
    for row := 0 to 9
      modifies a
      invariant forall i :: 0 <= i < 9 * row ==> Entries(a)[i] == Values(s)[i]
    {
      for column := 0 to 9
        modifies a
        invariant forall i :: 0 <= i < 9 * row + column ==> Entries(a)[i] == Values(s)[i]
      {
        var v := grid.GetVal(row, column);
        Put(a, row, column, v);
        CoordBijection(row, column);
      }
    }
  }

  /** The digits of a board with -1, the marker Cell.getVal is written with, for an unsolved cell. */
  ghost function MarkedAsWritten(s: seq<set<int>>): (b: seq<int>)
    requires WellFormed(s)
    ensures |b| == 81
  {
    seq(81, k requires 0 <= k < 81 => if SolvedAt(s, k) then ValAt(s, k) else -1)
  }

  /**
   * The int grid built with -1 for the unsolved cells holds no 0, so the
   * search has no square to fill, and its entry at an unsolved cell is not
   * a candidate of that cell.
   */
  lemma MarkedNoZero(s: seq<set<int>>)
    requires WellFormed(s)
    ensures forall k :: 0 <= k < 81 ==> MarkedAsWritten(s)[k] != 0
    ensures forall k :: 0 <= k < 81 && !SolvedAt(s, k) ==> MarkedAsWritten(s)[k] !in s[k]
  {
    forall k | 0 <= k < 81 ensures MarkedAsWritten(s)[k] != 0 {
      if SolvedAt(s, k) {
        assert IsDigit(ValueOf(s[k]));
      }
    }
  }

  /** The first loops of bruteForceSolver(Grid) with Cell.getVal as written. */
  method ToIntGridAsWritten(grid: Grid) returns (a: array2<int>)
    requires grid.Valid()
    ensures fresh(a) && a.Length0 == 9 && a.Length1 == 9
    ensures Entries(a) == MarkedAsWritten(grid.Cands())
  {
    ghost var s := grid.Cands();
    a := new int[9, 9]((i, j) => 0);
    for row := 0 to 9
      modifies a
      invariant forall i :: 0 <= i < 9 * row ==> Entries(a)[i] == MarkedAsWritten(s)[i]
    {
      for column := 0 to 9
        modifies a
        invariant forall i :: 0 <= i < 9 * row + column ==> Entries(a)[i] == MarkedAsWritten(s)[i]
      {
        CoordBijection(row, column);
        var v := grid.GetCell(row, column).ValueAsWritten();
        Put(a, row, column, v);
      }
    }
  }

  /**
   * bruteForceSolver(Grid) with Cell.getVal as written: on any grid with an
   * unsolved cell the array has no 0, the search changes nothing, and
   * solving that cell to -1 raises IllegalStateException.
   */
  method BruteForceGridAsWritten(grid: Grid) returns (r: Result<bool>)
    requires grid.Valid()
    modifies grid.Repr
    ensures grid.Valid()
    ensures (exists k :: 0 <= k < 81 && !SolvedAt(old(grid.Cands()), k)) ==> r == Err(NotACandidate)
    ensures r.Ok? ==> (r.value <==> BoardSolved(grid.Cands()))
  {
    ghost var s := grid.Cands();
    var a := ToIntGridAsWritten(grid);
    ghost var b := Entries(a);
    MarkedNoZero(s);
    FullCompletes(b);
    var found := BruteForce(a);
    assert Entries(a) == b && grid.Cands() == s;
    var o := SolveCells(grid, a);
    if o.Fail? {
      return Err(o.error);
    }
    assert forall i :: 0 <= i < 81 ==> b[i] in s[i];
    assert forall k :: 0 <= k < 81 ==> SolvedAt(s, k);
    var solved := grid.IsSolved();
    return Ok(solved);
  }

  /**
   * The last loops of bruteForceSolver(Grid): solves each cell, row by row,
   * to the array's entry. The first entry that is not a candidate of its
   * cell raises IllegalStateException (Err NotACandidate).
   */
  method SolveCells(grid: Grid, a: array2<int>) returns (o: Outcome)
    requires grid.Valid() && a.Length0 == 9 && a.Length1 == 9
    modifies grid.Repr
    ensures grid.Valid()
    ensures o.Fail? ==> o.error == NotACandidate
    ensures o.Pass? <==> forall i :: 0 <= i < 81 ==> Entries(a)[i] in old(grid.Cands())[i]
    ensures o.Pass? ==> forall i :: 0 <= i < 81 ==> grid.Cands()[i] == {Entries(a)[i]}
  {
    ghost var s, e := grid.Cands(), Entries(a);
    for row := 0 to 9
      invariant grid.Valid()
      invariant forall i :: 0 <= i < 9 * row ==> e[i] in s[i] && grid.Cands()[i] == {e[i]}
      invariant forall i :: 9 * row <= i < 81 ==> grid.Cands()[i] == s[i]
    {
      for column := 0 to 9
        invariant grid.Valid()
        invariant forall i :: 0 <= i < 9 * row + column ==> e[i] in s[i] && grid.Cands()[i] == {e[i]}
        invariant forall i :: 9 * row + column <= i < 81 ==> grid.Cands()[i] == s[i]
      {
        EntryAt(a, row, column);
        o := grid.SolveCell(row, column, a[row, column]);
        if o.Fail? {
          return;
        }
      }
    }
    return Pass;
  }

  /**
   * bruteForceSolver(Grid): copies the value of every cell (0 for an
   * unsolved one) into a new int[9][9], brute-forces it, solves each cell to
   * the array's entry and answers Grid.isSolved(). Solving a cell to an
   * entry that is not among its candidates raises IllegalStateException
   * (Err NotACandidate): on the zero that a failed search leaves, and on a
   * digit that the search placed but the grid had already ruled out.
   */
  method BruteForceGrid(grid: Grid) returns (r: Result<bool>)
    requires grid.Valid()
    modifies grid.Repr
    ensures grid.Valid()
    ensures r.Err? ==> r.error == NotACandidate
    ensures (forall x :: !Completes(Values(old(grid.Cands())), x)) ==> r.Err?
    ensures r.Ok? ==> (forall k :: 0 <= k < 81 ==> SolvedAt(grid.Cands(), k))
    ensures r.Ok? ==> Completes(Values(old(grid.Cands())), Values(grid.Cands()))
    ensures r.Ok? ==> Consistent(Values(grid.Cands()), old(grid.Cands()))
    ensures r.Ok? ==> (r.value <==> BoardSolved(grid.Cands()))
  {
    ghost var s := grid.Cands();
    var a := ToIntGrid(grid);
    var found := BruteForce(a);
    r := SolveFromArray(grid, a, Values(s), found);
  }

  /**
   * The last loops and the answer of bruteForceSolver(Grid): every cell is
   * solved to the array's entry, then Grid.isSolved() is the answer. The
   * array holds a completion of the grid's digits b, or b itself after a
   * failed search.
   */
  method SolveFromArray(grid: Grid, a: array2<int>, ghost b: seq<int>, found: bool) returns (r: Result<bool>)
    requires grid.Valid() && a.Length0 == 9 && a.Length1 == 9 && b == Values(grid.Cands())
    requires found ==> Completes(b, Entries(a))
    requires !found ==> Entries(a) == b
    modifies grid.Repr
    ensures grid.Valid()
    ensures r.Err? ==> r.error == NotACandidate
    ensures r.Ok? ==> (forall k :: 0 <= k < 81 ==> SolvedAt(grid.Cands(), k))
    ensures r.Ok? ==> Completes(b, Values(grid.Cands())) && Consistent(Values(grid.Cands()), old(grid.Cands()))
    ensures r.Ok? ==> (r.value <==> BoardSolved(grid.Cands()))
  {
    ghost var s := grid.Cands();
    ghost var e := Entries(a);
    var o := SolveCells(grid, a);
    if o.Fail? {
      return Err(o.error);
    }
    assert Entries(a) == e;
    assert forall i :: 0 <= i < 81 ==> e[i] in s[i] && ValidCands(s[i]);
    SolvedToValues(grid.Cands(), e);
    FoundOrFull(b, e, found);
    var solved := grid.IsSolved();
    return Ok(solved);
  }

  /** Some completion of b exists. */
  ghost predicate Completable(b: seq<int>) {
    exists x :: Completes(b, x)
  }

  /** The digits of the branch of s with cell k solved to its candidate v have a completion. */
  ghost predicate BranchCompletable(s: seq<set<int>>, k: int, v: int)
    requires WellFormed(s) && IsCoord(k) && v in s[k]
  {
    assert WellFormed(s[k := {v}]) by {
      assert forall p :: 0 <= p < 81 ==> s[k := {v}][p] == if p == k then {v} else s[p];
    }
    Completable(Values(s[k := {v}]))
  }

  /** The digits of a fully solved board complete themselves. */
  lemma SolvedCompletes(s: seq<set<int>>)
    requires WellFormed(s)
    ensures (forall k :: 0 <= k < 81 ==> SolvedAt(s, k)) ==> Completes(Values(s), Values(s))
  {
    if forall k :: 0 <= k < 81 ==> SolvedAt(s, k) {
      forall i | 0 <= i < 81 ensures Values(s)[i] != 0 {
        assert SolvedAt(s, i);
      }
      FullCompletes(Values(s));
    }
  }

  /**
   * bruteForceSolver(Grid) with a failed search answered by false: the grid
   * is solved from the array only when the int[][] search found a
   * completion, and is otherwise left as it was.
   */
  method BruteForceChecked(grid: Grid) returns (r: Result<bool>)
    requires grid.Valid()
    modifies grid.Repr
    ensures grid.Valid()
    ensures r.Err? ==> r.error == NotACandidate
    ensures !Completable(Values(old(grid.Cands()))) ==> r == Ok(false) && grid.Cands() == old(grid.Cands())
    ensures r.Ok? && Completable(Values(old(grid.Cands()))) ==>
      (forall k :: 0 <= k < 81 ==> SolvedAt(grid.Cands(), k)) &&
      Completes(Values(old(grid.Cands())), Values(grid.Cands())) &&
      Consistent(Values(grid.Cands()), old(grid.Cands()))
    ensures r.Ok? ==> (r.value <==> BoardSolved(grid.Cands()))
  {
    ghost var s := grid.Cands();
    var a := ToIntGrid(grid);
    var found := BruteForce(a);
    if !found {
      SolvedCompletes(s);
      return Ok(false);
    }
    r := SolveFromArray(grid, a, Values(s), found);
  }

  /*** Uniqueness. ***/

  /** sol is a solution that the board s admits. */
  ghost predicate Solves(sol: seq<int>, s: seq<set<int>>) {
    IsSolution(sol) && Consistent(sol, s)
  }

  /** The board s admits exactly one solution. */
  ghost predicate UniqueSolution(s: seq<set<int>>) {
    exists sol :: Solves(sol, s) && forall t :: Solves(t, s) ==> t == sol
  }

  /** A sound run that only shrinks the board keeps exactly the solutions it had. */
  lemma SameSolutions(s0: seq<set<int>>, s1: seq<set<int>>)
    requires Shrinks(s0, s1) && Sound(s0, s1, {}, false)
    ensures forall sol :: Solves(sol, s0) <==> Solves(sol, s1)
    ensures UniqueSolution(s0) <==> UniqueSolution(s1)
  {
    forall sol ensures Solves(sol, s0) <==> Solves(sol, s1) {
      assert Excludes(sol, {});
      if Consistent(sol, s1) {
        ConsistentGrows(sol, s0, s1);
      }
    }
  }

  /** Two different solutions leave no unique one. */
  lemma TwoSolutions(s: seq<set<int>>, x: seq<int>, y: seq<int>)
    requires Solves(x, s) && Solves(y, s) && x != y
    ensures !UniqueSolution(s)
  {
  }

  /** Two solved peers with the same value are a clash of the board's digits, and back. */
  lemma DupIsClash(s: seq<set<int>>, j: int, k: int)
    requires WellFormed(s)
    ensures DupPair(s, j, k) <==> Clash(Values(s), j, k)
  {
    if IsCoord(j) && IsCoord(k) {
      assert Values(s)[j] == ValueOf(s[j]) && Values(s)[k] == ValueOf(s[k]);
      if SolvedAt(s, j) && SolvedAt(s, k) {
        ValueOfInjective(s[j], s[k]);
      }
    }
  }

  /** A board with two solved peers of the same value admits no solution. */
  lemma DupNoSolution(s: seq<set<int>>)
    requires WellFormed(s) && HasDup(s)
    ensures forall sol :: !Solves(sol, s)
  {
    var j, k :| 0 <= j < 81 && 0 <= k < 81 && DupPair(s, j, k);
    var v := ValueOf(s[j]);
    assert s[j] == {v} && s[k] == {v};
    forall sol | Consistent(sol, s) ensures !IsSolution(sol) {
      assert sol[j] == v && sol[k] == v;
    }
  }

  /**
   * Solving an unsolved cell of a propagated board without duplicates to one
   * of its candidates makes no duplicate: every solved peer's value has
   * already been taken out of that cell.
   */
  lemma FillNoDup(s: seq<set<int>>, k: int, v: int)
    requires WellFormed(s) && Propagated(s) && !HasDup(s)
    requires IsCoord(k) && !SolvedAt(s, k) && v in s[k]
    ensures WellFormed(s[k := {v}]) && !HasDup(s[k := {v}])
  {
    var t := s[k := {v}];
    FillNoDupAt(s, k, v, 0, 0);
    forall j, i | 0 <= j < 81 && 0 <= i < 81 ensures !DupPair(t, j, i) {
      FillNoDupAt(s, k, v, j, i);
    }
  }

  lemma FillNoDupAt(s: seq<set<int>>, k: int, v: int, j: int, i: int)
    requires WellFormed(s) && Propagated(s) && !HasDup(s)
    requires IsCoord(k) && !SolvedAt(s, k) && v in s[k] && IsCoord(j) && IsCoord(i)
    ensures WellFormed(s[k := {v}]) && !DupPair(s[k := {v}], j, i)
  {
    assert !DupPair(s, j, i);
    SeesSymmetric(j, i);
    if SolvedAt(s, i) {
      assert CleanAt(s, i);
    }
    if SolvedAt(s, j) {
      assert CleanAt(s, j);
    }
  }

  /**
   * A brute-forced branch that came back with every cell solved, on a board
   * without duplicates, holds a solution of that board and passes
   * Grid.isSolved().
   */
  lemma BranchSolution(s1: seq<set<int>>, s2: seq<set<int>>)
    requires WellFormed(s1) && WellFormed(s2) && !HasDup(s1)
    requires forall k :: 0 <= k < 81 ==> SolvedAt(s2, k)
    requires Completes(Values(s1), Values(s2)) && Consistent(Values(s2), s1)
    ensures BoardSolved(s2) && Solves(Values(s2), s1)
  {
    forall j, k | 0 <= j < 81 && 0 <= k < 81 ensures !DupPair(s2, j, k) {
      DupIsClash(s1, j, k);
      DupIsClash(s2, j, k);
    }
    SolvedBoardSolution(s2);
  }

  /** Two fully solved boards with the same digits are the same board. */
  lemma ValuesDetermine(s: seq<set<int>>, t: seq<set<int>>)
    requires WellFormed(s) && WellFormed(t)
    requires forall k :: 0 <= k < 81 ==> SolvedAt(s, k) && SolvedAt(t, k)
    ensures Values(s) == Values(t) ==> s == t
  {
    if Values(s) == Values(t) {
      forall k | 0 <= k < 81 ensures s[k] == t[k] {
        assert SolvedAt(s, k) && SolvedAt(t, k);
        assert ValidCands(s[k]) && ValidCands(t[k]);
        assert Values(s)[k] == ValAt(s, k) && Values(t)[k] == ValAt(t, k);
      }
    }
  }

  /** All solutions of s agree with x at a solved cell of s that x is consistent with. */
  lemma SolvedCellAgrees(s: seq<set<int>>, x: seq<int>, p: int)
    requires WellFormed(s) && Consistent(x, s) && IsCoord(p) && SolvedAt(s, p)
    ensures forall t :: Consistent(t, s) ==> t[p] == x[p]
  {
    assert s[p] == {ValueOf(s[p])};
  }

  /** A solution that a board admits completes the board's digits. */
  lemma ConsistentCompletes(s: seq<set<int>>, t: seq<int>)
    requires WellFormed(s) && Solves(t, s)
    ensures Completes(Values(s), t)
  {
    forall p | 0 <= p < 81 && Values(s)[p] != 0 ensures t[p] == Values(s)[p] {
      assert Values(s)[p] == ValueOf(s[p]);
      assert s[p] == {ValueOf(s[p])};
    }
    SolutionCompletes(Values(s), t);
  }

  /** A solution that puts v in cell k is a solution of the branch with k solved to v. */
  lemma BranchCovers(s: seq<set<int>>, k: int, v: int)
    requires WellFormed(s) && IsCoord(k) && v in s[k]
    ensures WellFormed(s[k := {v}]) && Shrinks(s, s[k := {v}])
    ensures forall t :: Solves(t, s) && t[k] == v ==> Solves(t, s[k := {v}]) && Completable(Values(s[k := {v}]))
  {
    var s1 := s[k := {v}];
    forall t | Solves(t, s) && t[k] == v ensures Solves(t, s1) && Completable(Values(s1)) {
      assert Consistent(t, s1);
      ConsistentCompletes(s1, t);
    }
  }

  /** Solutions of s that agree with x on every cell before pos where s is unsolved agree with x on all of them. */
  lemma SolvedPrefixAgrees(s: seq<set<int>>, x: seq<int>, pos: int)
    requires WellFormed(s) && Consistent(x, s) && 0 <= pos <= 81
    requires forall p :: 0 <= p < pos ==> SolvedAt(s, p)
    ensures forall t :: Consistent(t, s) ==> AgreeBefore(t, x, pos)
  {
    forall t | Consistent(t, s) ensures AgreeBefore(t, x, pos) {
      forall p | 0 <= p < pos ensures t[p] == x[p] {
        SolvedCellAgrees(s, x, p);
      }
    }
  }

  /** t and x agree on the cells before n. */
  ghost predicate AgreeBefore(t: seq<int>, x: seq<int>, n: int) {
    forall p :: 0 <= p < n && p < |t| && p < |x| ==> t[p] == x[p]
  }

  /** A solution that every solution agrees with everywhere is the only one. */
  lemma AgreesEverywhere(s: seq<set<int>>, x: seq<int>)
    requires Solves(x, s)
    requires forall t :: Solves(t, s) ==> AgreeBefore(t, x, 81)
    ensures UniqueSolution(s)
  {
    forall t | Solves(t, s) ensures t == x {
      assert AgreeBefore(t, x, 81);
      assert |t| == 81 == |x|;
    }
    assert Solves(x, s) && forall t :: Solves(t, s) ==> t == x;
  }

  /** The first i + 1 elements of xs are the first i and xs[i]. */
  lemma PrefixStep(xs: seq<int>, i: int)
    requires 0 <= i < |xs|
    ensures forall x :: x in xs[..i + 1] <==> x in xs[..i] || x == xs[i]
  {
    assert xs[..i + 1] == xs[..i] + [xs[i]];
  }

  /** A fully solved clone g holding the digits x, which are a solution of s. */
  ghost predicate Kept(g: Grid, x: seq<int>, s: seq<set<int>>)
    reads g, g.cells, g.Repr
  {
    g.Valid() && (forall p :: 0 <= p < 81 ==> SolvedAt(g.Cands(), p)) && Values(g.Cands()) == x && Solves(x, s)
  }

  /**
   * One branch of isValidSlow: a clone of the grid with the unsolved cell
   * (row, column) solved to v, brute-forced by BruteForceGrid as the source
   * does, or by BruteForceChecked when `checked`. A solved clone holds a
   * solution that puts v there; as written, a branch whose digits have no
   * completion raises (Err), and checked it answers false.
   */
  method SlowBranch(grid: Grid, ghost s: seq<set<int>>, row: int, column: int, v: int, checked: bool)
    returns (b: Result<bool>, copy: Grid, ghost x: seq<int>)
    requires grid.Valid() && s == grid.Cands() && IsIndex(row) && IsIndex(column) && v in s[Coord(row, column)]
    requires Propagated(s) && !HasDup(s) && !SolvedAt(s, Coord(row, column))
    ensures b.Err? ==> b.error == NotACandidate
    ensures b == Ok(true) ==> Kept(copy, x, s) && x[Coord(row, column)] == v
    ensures b == Ok(false) ==> checked && forall t :: Solves(t, s) ==> t[Coord(row, column)] != v
    ensures !checked && !BranchCompletable(s, Coord(row, column), v) ==> b.Err?
  {
    var k := Coord(row, column);
    CoordBijection(row, column);
    copy := grid.Clone();
    var _ := copy.SolveCell(row, column, v);
    ghost var s1 := copy.Cands();
    assert s1 == s[k := {v}];
    FillNoDup(s, k, v);
    BranchCovers(s, k, v);
    if checked {
      b := BruteForceChecked(copy);
    } else {
      b := BruteForceGrid(copy);
    }
    x := Values(copy.Cands());
    if b.Ok? && (!checked || Completable(Values(s1))) {
      BranchSolution(s1, copy.Cands());
      ConsistentGrows(x, s, s1);
    }
  }

  /**
   * One candidate v of the unsolved cell (row, column) in isValidSlow: the
   * first solved clone is kept in `solved`, and a solved clone different
   * from it ends the search with false. On Ok(true) every solution that
   * puts v in this cell is `first`, the digits of the kept clone; as
   * written, Ok(true) means the branch was kept or equals the kept clone.
   */
  method SlowTry(grid: Grid, ghost s: seq<set<int>>, row: int, column: int, v: int, checked: bool,
                 solved0: Grid?, ghost first0: seq<int>)
    returns (r: Result<bool>, solved: Grid?, ghost first: seq<int>)
    requires grid.Valid() && s == grid.Cands() && IsIndex(row) && IsIndex(column) && v in s[Coord(row, column)]
    requires Propagated(s) && !HasDup(s) && !SolvedAt(s, Coord(row, column))
    requires solved0 != null ==> Kept(solved0, first0, s)
    ensures r.Err? ==> r.error == NotACandidate
    ensures r == Ok(false) ==> !UniqueSolution(s)
    ensures r == Ok(true) && solved0 != null ==> solved == solved0 && first == first0
    ensures r == Ok(true) && solved != null ==> Kept(solved, first, s)
    ensures r == Ok(true) ==> forall t :: Solves(t, s) && t[Coord(row, column)] == v ==>
      solved != null && first[Coord(row, column)] == v
    ensures !checked && r == Ok(true) ==> solved != null && first[Coord(row, column)] == v
    ensures !checked && !BranchCompletable(s, Coord(row, column), v) ==> r.Err?
  {
    var b, copy, x := SlowBranch(grid, s, row, column, v, checked);
    solved, first := solved0, first0;
    if b.Err? {
      return Err(b.error), solved, first;
    }
    if b.value {
      var same := solved != null && copy.Equals(solved);
      if solved != null {
        copy.EqualsBoards(solved);
        ValuesDetermine(copy.Cands(), solved.Cands());
      }
      if !same {
        if solved == null {
          solved, first := copy, x;
        } else {
          TwoSolutions(s, x, first);
          return Ok(false), solved, first;
        }
      }
    }
    r := Ok(true);
  }

  /** Every solution of s that puts one of vs in cell k agrees there with first, which is kept. */
  ghost predicate Covered(s: seq<set<int>>, k: int, vs: seq<int>, kept: bool, first: seq<int>)
    requires IsCoord(k)
  {
    forall t :: Solves(t, s) && t[k] in vs ==> kept && |first| == 81 && t[k] == first[k]
  }

  /** Trying one more candidate extends what the candidate loop covers. */
  lemma CoveredStep(s: seq<set<int>>, k: int, cands: seq<int>, i: int,
                    kept0: bool, first0: seq<int>, kept: bool, first: seq<int>)
    requires IsCoord(k) && 0 <= i < |cands| && Covered(s, k, cands[..i], kept0, first0)
    requires kept0 ==> kept && first == first0
    requires kept ==> |first| == 81
    requires forall t :: Solves(t, s) && t[k] == cands[i] ==> kept && first[k] == cands[i]
    ensures Covered(s, k, cands[..i + 1], kept, first)
  {
    PrefixStep(cands, i);
  }

  /** Once every candidate of cell k is covered, every solution agrees with first there. */
  lemma CoveredAll(s: seq<set<int>>, k: int, cands: seq<int>, kept: bool, first: seq<int>)
    requires WellFormed(s) && IsCoord(k) && cands == InOrder(s[k]) && Covered(s, k, cands, kept, first)
    ensures forall t :: Solves(t, s) ==> kept && |first| == 81 && t[k] == first[k]
  {
    forall t | Solves(t, s) ensures kept && |first| == 81 && t[k] == first[k] {
      assert t[k] in s[k] && IsDigit(t[k]);
    }
  }

  /** One round of the candidate loop: SlowTry on cands[i], extending what the loop covers. */
  method SlowCellStep(grid: Grid, ghost s: seq<set<int>>, row: int, column: int, checked: bool, cands: seq<int>, i: int,
                      solved0: Grid?, ghost first0: seq<int>)
    returns (r: Result<bool>, solved: Grid?, ghost first: seq<int>)
    requires grid.Valid() && s == grid.Cands() && IsIndex(row) && IsIndex(column)
    requires Propagated(s) && !HasDup(s) && !SolvedAt(s, Coord(row, column))
    requires 0 <= i < |cands| && cands[i] in s[Coord(row, column)]
    requires solved0 != null ==> Kept(solved0, first0, s)
    requires Covered(s, Coord(row, column), cands[..i], solved0 != null, first0)
    ensures r.Err? ==> r.error == NotACandidate
    ensures r == Ok(false) ==> !UniqueSolution(s)
    ensures r == Ok(true) && solved0 != null ==> solved == solved0 && first == first0
    ensures r == Ok(true) && solved != null ==> Kept(solved, first, s)
    ensures r == Ok(true) ==> Covered(s, Coord(row, column), cands[..i + 1], solved != null, first)
    ensures !checked && r == Ok(true) ==> solved != null && first[Coord(row, column)] == cands[i]
    ensures !checked && !BranchCompletable(s, Coord(row, column), cands[i]) ==> r.Err?
  {
    r, solved, first := SlowTry(grid, s, row, column, cands[i], checked, solved0, first0);
    if r == Ok(true) {
      CoveredStep(s, Coord(row, column), cands, i, solved0 != null, first0, solved != null, first);
    }
  }

  /**
   * The candidate loop of isValidSlow for the unsolved cell (row, column):
   * SlowTry on each candidate in ascending order. On Ok(true) every
   * solution of the board agrees with `first` at this cell. As written it
   * never answers Ok(true): the cell has two candidates, and their branches
   * raise or keep solutions that differ here. The smallest candidate's
   * branch raises when its digits have no completion.
   */
  method SlowCell(grid: Grid, ghost s: seq<set<int>>, row: int, column: int, checked: bool,
                  solved0: Grid?, ghost first0: seq<int>)
    returns (r: Result<bool>, solved: Grid?, ghost first: seq<int>)
    requires grid.Valid() && s == grid.Cands() && IsIndex(row) && IsIndex(column)
    requires Propagated(s) && !HasDup(s) && !SolvedAt(s, Coord(row, column))
    requires solved0 != null ==> Kept(solved0, first0, s)
    ensures r.Err? ==> r.error == NotACandidate
    ensures r == Ok(false) ==> !UniqueSolution(s)
    ensures r == Ok(true) && solved0 != null ==> solved == solved0 && first == first0
    ensures r == Ok(true) && solved != null ==> Kept(solved, first, s)
    ensures r == Ok(true) ==> Covered(s, Coord(row, column), InOrder(s[Coord(row, column)]), solved != null, first)
    ensures !checked ==> r != Ok(true)
    ensures !checked && !BranchCompletable(s, Coord(row, column), Smallest(s[Coord(row, column)])) ==> r.Err?
  {
    var k := Coord(row, column);
    CoordBijection(row, column);
    var cands := InOrder(grid.GetCands(row, column));
    UnsolvedTwoCands(s[k]);
    solved, first := solved0, first0;
    r := Ok(true);
    var i := 0;
    while i < |cands|
      invariant 0 <= i <= |cands| && r == Ok(true)
      invariant solved0 != null ==> solved == solved0 && first == first0
      invariant solved != null ==> Kept(solved, first, s)
      invariant Covered(s, k, cands[..i], solved != null, first)
      invariant !checked ==> i <= 1
      invariant !checked && i == 1 ==> solved != null && first[k] == cands[0]
      invariant !checked && i == 1 ==> BranchCompletable(s, k, cands[0])
    {
      r, solved, first := SlowCellStep(grid, s, row, column, checked, cands, i, solved, first);
      if r.Err? || !r.value {
        return;
      }
      i := i + 1;
    }
    assert cands[..i] == cands;
  }

  /** The smallest of a cell's candidates. */
  function Smallest(c: set<int>): (v: int)
    requires ValidCands(c)
    ensures v in c && forall u :: u in c ==> v <= u
  {
    InOrderElements(c);
    assert InOrder(c)[0] in c;
    InOrder(c)[0]
  }

  /** An unsolved cell lists at least two candidates, the smallest first. */
  lemma UnsolvedTwoCands(c: set<int>)
    requires ValidCands(c) && |c| != 1
    ensures |InOrder(c)| >= 2 && InOrder(c)[0] == Smallest(c)
  {
    var r := InOrder(c);
    var a := Smallest(c);
    var rest := c - {a};
    assert |rest| != 0;
    var b := Smallest(rest);
    assert a in r && b in r;
    var j :| 0 <= j < |r| && r[j] == a;
    var i :| 0 <= i < |r| && r[i] == b;
  }





  /**
   * What the cell loops of isValidSlow know about the cells before pos:
   * without a kept clone, a board with a solution has all of them solved;
   * with one, every solution agrees there with `first`.
   */
  ghost predicate Searched(s: seq<set<int>>, pos: int, kept: bool, first: seq<int>)
    requires WellFormed(s) && 0 <= pos <= 81
  {
    if kept then forall t :: Solves(t, s) ==> AgreeBefore(t, first, pos)
    else forall t :: Solves(t, s) ==> forall p :: 0 <= p < pos ==> SolvedAt(s, p)
  }

  /** Passing over a solved cell keeps what the loops know. */
  lemma SearchedSolved(s: seq<set<int>>, k: int, kept: bool, first: seq<int>)
    requires WellFormed(s) && IsCoord(k) && SolvedAt(s, k) && Searched(s, k, kept, first)
    requires kept ==> Solves(first, s)
    ensures Searched(s, k + 1, kept, first)
  {
    if kept {
      SolvedCellAgrees(s, first, k);
      forall t | Solves(t, s) ensures AgreeBefore(t, first, k + 1) {
        assert AgreeBefore(t, first, k);
      }
    }
  }

  /** After SlowCell on the unsolved cell k, every solution agrees with the kept clone there. */
  lemma SearchedUnsolved(s: seq<set<int>>, k: int, kept0: bool, first0: seq<int>, kept: bool, first: seq<int>)
    requires WellFormed(s) && IsCoord(k) && Searched(s, k, kept0, first0)
    requires kept0 ==> kept && first == first0
    requires kept ==> Solves(first, s)
    requires forall t :: Solves(t, s) ==> kept && t[k] == first[k]
    ensures Searched(s, k + 1, kept, first)
  {
    if kept && !kept0 {
      assert forall p :: 0 <= p < k ==> SolvedAt(s, p);
      SolvedPrefixAgrees(s, first, k);
    }
    if kept {
      forall t | Solves(t, s) ensures AgreeBefore(t, first, k + 1) {
        assert AgreeBefore(t, first, k);
      }
    }
  }

  /** One cell of isValidSlow's loops: SlowCell when the cell (row, column) is unsolved. */
  method SlowStep(grid: Grid, ghost s: seq<set<int>>, row: int, column: int, checked: bool,
                  solved0: Grid?, ghost first0: seq<int>)
    returns (r: Result<bool>, solved: Grid?, ghost first: seq<int>)
    requires grid.Valid() && s == grid.Cands() && IsIndex(row) && IsIndex(column)
    requires Propagated(s) && !HasDup(s)
    requires solved0 != null ==> Kept(solved0, first0, s)
    requires Searched(s, Coord(row, column), solved0 != null, first0)
    ensures r.Err? ==> r.error == NotACandidate
    ensures r == Ok(false) ==> !UniqueSolution(s)
    ensures r == Ok(true) && solved != null ==> Kept(solved, first, s)
    ensures r == Ok(true) ==> Searched(s, Coord(row, column) + 1, solved != null, first)
    ensures !checked && r == Ok(true) ==> SolvedAt(s, Coord(row, column))
  {
    var k := Coord(row, column);
    CoordBijection(row, column);
    if grid.IsSolvedAt(row, column) {
      SearchedSolved(s, k, solved0 != null, first0);
      return Ok(true), solved0, first0;
    }
    r, solved, first := SlowCell(grid, s, row, column, checked, solved0, first0);
    if r == Ok(true) {
      CoveredAll(s, k, InOrder(s[k]), solved != null, first);
      SearchedUnsolved(s, k, solved0 != null, first0, solved != null, first);
    }
  }

  /**
   * The cell loops of isValidSlow, row by row. On Ok(true), a kept solved
   * clone holds the only solution of the board, and with none kept the
   * board has no solution unless it is fully solved. As written, Ok(true)
   * means the loops met no unsolved cell.
   */
  method SlowBranches(grid: Grid, checked: bool) returns (r: Result<bool>, solved: Grid?, ghost first: seq<int>)
    requires grid.Valid() && Propagated(grid.Cands()) && !HasDup(grid.Cands())
    ensures r.Err? ==> r.error == NotACandidate
    ensures r == Ok(false) ==> !UniqueSolution(grid.Cands())
    ensures r == Ok(true) && solved != null ==> UniqueSolution(grid.Cands()) && Solves(first, grid.Cands())
    ensures r == Ok(true) && solved == null ==>
      forall t :: Solves(t, grid.Cands()) ==> forall p :: 0 <= p < 81 ==> SolvedAt(grid.Cands(), p)
    ensures !checked && r == Ok(true) ==> forall p :: 0 <= p < 81 ==> SolvedAt(grid.Cands(), p)
  {
    ghost var s := grid.Cands();
    solved, first := null, [];
    for row := 0 to 9
      invariant solved != null ==> Kept(solved, first, s)
      invariant Searched(s, 9 * row, solved != null, first)
      invariant !checked ==> forall p :: 0 <= p < 9 * row ==> SolvedAt(s, p)
    {
      for column := 0 to 9
        invariant solved != null ==> Kept(solved, first, s)
        invariant Searched(s, 9 * row + column, solved != null, first)
        invariant !checked ==> forall p :: 0 <= p < 9 * row + column ==> SolvedAt(s, p)
      {
        r, solved, first := SlowStep(grid, s, row, column, checked, solved, first);
        if r.Err? || !r.value {
          return;
        }
      }
    }
    if solved != null {
      AgreesEverywhere(s, first);
    }
    return Ok(true), solved, first;
  }

  /** A fully solved board without duplicates has exactly one solution: its own digits. */
  lemma SolvedUnique(s: seq<set<int>>)
    requires WellFormed(s) && BoardSolved(s)
    ensures UniqueSolution(s) && Solves(Values(s), s)
  {
    SoundRefl(s);
    assert Shrinks(s, s);
    SolvedRunUnique(s, s);
    var v := Values(s);
    assert Solves(v, s) && forall t :: Solves(t, s) ==> t == v;
  }

  /**
   * Generator.isValidSlow: naked singles, then SlowChecks with the source's
   * brute force. On a board the naked singles leave unsolved it never
   * answers true: a board with exactly one solution raises.
   */
  method IsValidSlow(grid: Grid) returns (r: Result<bool>)
    requires grid.Valid()
    modifies grid.Repr
    ensures grid.Valid()
    ensures r.Err? ==> r.error == NotACandidate
    ensures r == Ok(false) ==> !UniqueSolution(old(grid.Cands()))
    ensures r == Ok(true) ==> UniqueSolution(old(grid.Cands())) && BoardSolved(grid.Cands())
    ensures UniqueSolution(old(grid.Cands())) && !BoardSolved(grid.Cands()) ==> r.Err?
  {
    ghost var s0 := grid.Cands();
    var solver := new Solver(grid);
    var _ := solver.RunNakedSingle(solver.changedCoords);
    ghost var s := grid.Cands();
    SameSolutions(s0, s);
    var kept;
    r, kept := SlowChecks(grid, s, false);
    assert UniqueSolution(s0) == UniqueSolution(s);
  }

  /**
   * The rest of isValidSlow on the board s left by the naked singles: a
   * duplicate answers false, a solved board true, and otherwise
   * SlowBranches decides. `kept` says whether the answer rests on a
   * solution: the board was solved, or the search kept a solved clone.
   * With the checked brute force, a search that kept none reaches the
   * source's final true only on a board with no solution; as written it
   * never reaches it past an unsolved cell.
   */
  method SlowChecks(grid: Grid, ghost s: seq<set<int>>, checked: bool) returns (r: Result<bool>, kept: bool)
    requires grid.Valid() && s == grid.Cands() && Propagated(s)
    ensures r.Err? ==> r.error == NotACandidate
    ensures r == Ok(false) ==> !UniqueSolution(s)
    ensures r == Ok(true) ==> (kept <==> UniqueSolution(s))
    ensures r == Ok(true) && !kept ==> forall sol :: !Solves(sol, s)
    ensures !checked && r == Ok(true) ==> kept && BoardSolved(s)
    ensures !checked && UniqueSolution(s) && !BoardSolved(s) ==> r.Err?
  {
    var dup := grid.HasDuplicate();
    if dup {
      DupNoSolution(s);
      return Ok(false), false;
    }
    var n := grid.NumSolved();
    if n == 81 {
      SolvedUnique(s);
      return Ok(true), true;
    }
    var b, solved, first := SlowBranches(grid, checked);
    if b.Err? || !b.value {
      return b, false;
    }
    return Ok(true), solved != null;
  }

  /**
   * isValidSlow with each branch brute-forced by BruteForceChecked, and
   * answering whether the search kept a solution where the source answers
   * true.
   */
  method IsValidSlowCorrected(grid: Grid) returns (r: Result<bool>)
    requires grid.Valid()
    modifies grid.Repr
    ensures grid.Valid()
    ensures r.Err? ==> r.error == NotACandidate
    ensures r.Ok? ==> (r.value <==> UniqueSolution(old(grid.Cands())))
  {
    ghost var s0 := grid.Cands();
    var solver := new Solver(grid);
    var _ := solver.RunNakedSingle(solver.changedCoords);
    SameSolutions(s0, grid.Cands());
    var kept;
    r, kept := SlowChecks(grid, grid.Cands(), true);
    if r == Ok(true) {
      r := Ok(kept);
    }
  }

  /** Cell k holds two different candidates: a board where the search could branch. */
  ghost predicate Branching(s: seq<set<int>>, k: int)
    requires IsCoord(k) && |s| == 81
  {
    exists a, b :: a in s[k] && b in s[k] && a < b
  }

  /**
   * Generator.isValid(grid): run the solver; a duplicate answers false, a
   * solved board true, and otherwise the recursive branch search decides.
   * `decided` says the answer came from the first two checks, where it is
   * exact. An exception of the solver propagates as Err.
   */
  method IsValid(grid: Grid) returns (r: Result<bool>, ghost decided: bool)
    requires grid.Valid()
    modifies grid.Repr
    ensures grid.Valid()
    ensures r.Err? && r.error == NoCandidatesLeft ==> forall sol :: !Solves(sol, old(grid.Cands()))
    ensures decided ==> r.Ok? && (r.value <==> UniqueSolution(old(grid.Cands())))
    ensures r.Ok? && !decided ==>
      Propagated(grid.Cands()) && !HasDup(grid.Cands()) && !BoardSolved(grid.Cands())
  {
    ghost var s0 := grid.Cands();
    var solver := new Solver(grid);
    var out := solver.Solve();
    if out.Err? {
      return Err(out.error), false;
    }
    SameSolutions(s0, grid.Cands());
    var valid;
    valid, decided := ValidChecks(grid, grid.Cands());
    return Ok(valid), decided;
  }

  /**
   * The rest of the recursive isValid on the board s left by the solver: a
   * duplicate answers false, a solved board true, and otherwise the branch
   * search from coordinate 0 decides.
   */
  method ValidChecks(grid: Grid, ghost s: seq<set<int>>) returns (valid: bool, ghost decided: bool)
    requires grid.Valid() && s == grid.Cands()
    ensures decided ==> (valid <==> UniqueSolution(s))
    ensures !decided ==> !HasDup(s) && !BoardSolved(s)
  {
    var dup := grid.HasDuplicate();
    if dup {
      DupNoSolution(s);
      return false, true;
    }
    var n := grid.NumSolved();
    if n == 81 {
      SolvedUnique(s);
      return true, true;
    }
    valid := IsValidFrom(grid, s, 0);
    decided := false;
  }

  /**
   * Generator.isValid(grid, cells, index): branch on every unsolved cell
   * from index on, in coordinate order; false as soon as one cell has two
   * accepted branches. The grid itself is left alone (the branches work on
   * clones).
   */
  method IsValidFrom(grid: Grid, ghost s: seq<set<int>>, index: int) returns (valid: bool)
    requires grid.Valid() && s == grid.Cands() && 0 <= index <= 81
    ensures (forall k :: index <= k < 81 ==> SolvedAt(s, k)) ==> valid
    ensures !valid ==> exists k :: index <= k < 81 && Branching(s, k)
    decreases 81 - index, 2
  {
    for i := index to 81
      invariant grid.Valid() && s == grid.Cands()
    {
      assert Coord(RowOf(i), ColumnOf(i)) == i;
      assert SolvedAt(s, i) ==> ValueOf(s[i]) in s[i];
      if !grid.IsSolvedAt(RowOf(i), ColumnOf(i)) {
        valid := CellBranches(grid, s, i);
        if !valid {
          return;
        }
      }
    }
    return true;
  }

  /**
   * The candidate loop of the recursive isValid for the unsolved cell i: a
   * candidate is accepted when the solver finishes on the clone that places
   * it and the search from i + 1 on that clone answers true. Any solver
   * exception skips the candidate, and a second accepted candidate answers
   * false.
   */
  method CellBranches(grid: Grid, ghost s: seq<set<int>>, i: int) returns (valid: bool)
    requires grid.Valid() && s == grid.Cands() && IsCoord(i)
    ensures !valid ==> Branching(s, i)
    decreases 81 - i, 1
  {
    var row, column := RowOf(i), ColumnOf(i);
    assert Coord(row, column) == i;
    var cands := InOrder(grid.GetCands(row, column));
    var solvedOne := false;
    ghost var accepted := 0;
    for j := 0 to |cands|
      invariant grid.Valid() && s == grid.Cands()
      invariant solvedOne ==> 0 <= accepted < j
    {
      var branch := Branch(grid, i, cands[j]);
      if branch {
        if solvedOne {
          assert cands[accepted] in s[i] && cands[j] in s[i] && cands[accepted] < cands[j];
          return false;
        }
        solvedOne, accepted := true, j;
      }
    }
    return true;
  }

  /**
   * One branch of the recursive isValid: place v in cell i of a clone, run
   * the solver on it and, when the solver finishes, search the clone from
   * i + 1. True when the branch is accepted.
   */
  method Branch(grid: Grid, i: int, v: int) returns (accepted: bool)
    requires grid.Valid() && IsCoord(i) && v in grid.Cands()[i]
    decreases 81 - i, 0
  {
    assert Coord(RowOf(i), ColumnOf(i)) == i;
    var copy := grid.Clone();
    var o := copy.SolveCell(RowOf(i), ColumnOf(i), v);
    assert o.Pass?;
    var solver := new Solver(copy);
    var out := solver.Solve();
    accepted := false;
    if out.Ok? {
      accepted := IsValidFrom(copy, copy.Cands(), i + 1);
    }
  }
}
