/**
 * What it means for the solver's deductions to be correct. A solution is a
 * filled-in board in which no two cells that see each other hold the same
 * digit; a board of candidates admits a solution when every cell's digit is
 * among that cell's candidates. A deduction is sound when it keeps every
 * solution the board admitted, and it may only fail (the Java engine throws)
 * when the board admitted none.
 */
module Solutions {
  import opened Geometry
  import opened Grids

  /** A filled-in board: a digit per cell, different from the digit of every cell it sees. */
  ghost predicate IsSolution(sol: seq<int>) {
    |sol| == 81 && (forall k :: 0 <= k < 81 ==> IsDigit(sol[k])) &&
    forall j, k :: 0 <= j < 81 && 0 <= k < 81 && Sees(j, k) ==> sol[j] != sol[k]
  }

  /** The board s admits the solution sol: each cell's digit is one of its candidates. */
  ghost predicate Consistent(sol: seq<int>, s: seq<set<int>>) {
    |sol| == 81 && |s| == 81 && forall k :: 0 <= k < 81 ==> sol[k] in s[k]
  }

  /** The solution places none of the (coordinate, digit) pairs of targets. */
  ghost predicate Excludes(sol: seq<int>, targets: set<(int, int)>) {
    forall t :: t in targets ==> 0 <= t.0 < |sol| && sol[t.0] != t.1
  }

  /**
   * Going from s0 to s1 loses no solution that avoids targets, and a run that
   * failed had no such solution to lose. With no targets, this is the
   * soundness of a deduction rule.
   */
  ghost predicate Sound(s0: seq<set<int>>, s1: seq<set<int>>, targets: set<(int, int)>, failed: bool) {
    forall sol :: IsSolution(sol) && Consistent(sol, s0) && Excludes(sol, targets) ==>
      Consistent(sol, s1) && !failed
  }

  /** Cells at different positions of cs see each other. */
  predicate PairwiseSees(cs: seq<int>) {
    forall i, j :: 0 <= i < |cs| && 0 <= j < |cs| && i != j ==> Sees(cs[i], cs[j])
  }

  /** Nine cells that all see each other: a row, a column or a box. */
  predicate Group(cs: seq<int>) {
    |cs| == 9 && AllCoords(cs) && PairwiseSees(cs)
  }

  /*** Sound runs compose. ***/

  lemma SoundRefl(s: seq<set<int>>)
    ensures Sound(s, s, {}, false)
  {
  }

  /** A run that may claim failure may also claim it less often. */
  lemma SoundWeaker(s0: seq<set<int>>, s1: seq<set<int>>, t: set<(int, int)>, failed: bool, weaker: bool)
    requires Sound(s0, s1, t, failed) && (weaker ==> failed)
    ensures Sound(s0, s1, t, weaker)
  {
  }

  /** A later leg of a run inherits the first leg's solutions. */
  lemma {:induction false} SoundTrans(a: seq<set<int>>, b: seq<set<int>>, c: seq<set<int>>,
                                      ta: set<(int, int)>, tb: set<(int, int)>, failed: bool)
    requires Sound(a, b, ta, false) && Sound(b, c, tb, failed)
    ensures Sound(a, c, ta + tb, failed)
  {
    forall sol | IsSolution(sol) && Consistent(sol, a) && Excludes(sol, ta + tb)
      ensures Consistent(sol, c) && !failed
    {
      assert Excludes(sol, ta) && Excludes(sol, tb);
    }
  }

  /** Fewer targets to avoid make a weaker promise. */
  lemma SoundWiden(s0: seq<set<int>>, s1: seq<set<int>>, t: set<(int, int)>, u: set<(int, int)>, failed: bool)
    requires Sound(s0, s1, t, failed) && t <= u
    ensures Sound(s0, s1, u, failed)
  {
  }

  /**
   * A target whose digit is the value of a solved cell it sees is excluded by
   * every solution the board admits, so it need not be mentioned.
   */
  lemma {:induction false} SoundDrop(s0: seq<set<int>>, s1: seq<set<int>>, t: set<(int, int)>,
                                     x: int, d: int, p: int, failed: bool)
    requires Sound(s0, s1, t + {(x, d)}, failed)
    requires IsCoord(x) && IsCoord(p) && Sees(x, p) && |s0| == 81 && s0[p] == {d}
    ensures Sound(s0, s1, t, failed)
  {
    forall sol | IsSolution(sol) && Consistent(sol, s0) && Excludes(sol, t)
      ensures Consistent(sol, s1) && !failed
    {
      assert sol[p] in s0[p];
      assert Excludes(sol, t + {(x, d)});
    }
  }

  /** A target every admitted solution avoids need not be mentioned. */
  lemma {:induction false} SoundDropAll(s0: seq<set<int>>, s1: seq<set<int>>, t: set<(int, int)>, failed: bool)
    requires Sound(s0, s1, t, failed)
    requires forall sol :: IsSolution(sol) && Consistent(sol, s0) ==> Excludes(sol, t)
    ensures Sound(s0, s1, {}, failed)
  {
  }

  /** Admitting a solution carries over to the larger board. */
  lemma ConsistentGrows(sol: seq<int>, s: seq<set<int>>, t: seq<set<int>>)
    requires Consistent(sol, t) && Shrinks(s, t)
    ensures Consistent(sol, s)
  {
  }

  /*** Rows, columns and boxes are groups. ***/

  lemma {:induction false} RowGroup(row: int)
    requires IsIndex(row)
    ensures Group(RowCoords(row))
  {
    forall i, j | 0 <= i < 9 && 0 <= j < 9 && i != j ensures Sees(RowCoords(row)[i], RowCoords(row)[j]) {
      CoordBijection(row, i);
      CoordBijection(row, j);
    }
  }

  lemma {:induction false} ColumnGroup(column: int)
    requires IsIndex(column)
    ensures Group(ColumnCoords(column))
  {
    forall i, j | 0 <= i < 9 && 0 <= j < 9 && i != j ensures Sees(ColumnCoords(column)[i], ColumnCoords(column)[j]) {
      CoordBijection(i, column);
      CoordBijection(j, column);
    }
  }

  lemma {:induction false} BoxGroup(row: int, column: int)
    requires IsIndex(row) && IsIndex(column)
    ensures Group(BoxCoords(row, column))
  {
    var s := BoxCoords(row, column);
    forall i, j | 0 <= i < 9 && 0 <= j < 9 && i != j ensures Sees(s[i], s[j]) {
      BoxPairSees(row, column, i, j);
    }
  }

  lemma {:induction false} BoxPairSees(row: int, column: int, i: int, j: int)
    requires IsIndex(row) && IsIndex(column) && 0 <= i < 9 && 0 <= j < 9 && i != j
    ensures Sees(BoxCoords(row, column)[i], BoxCoords(row, column)[j])
  {
    BoxCoordsSound(row, column, i);
    BoxCoordsSound(row, column, j);
    BoxCoordsDistinct(row, column, i, j);
  }

  /** The nine cells of a box are different cells. */
  lemma {:induction false} BoxCoordsDistinct(row: int, column: int, i: int, j: int)
    requires IsIndex(row) && IsIndex(column) && 0 <= i < 9 && 0 <= j < 9 && i != j
    ensures BoxCoords(row, column)[i] != BoxCoords(row, column)[j]
  {
    var a, b, c, d := i / 3, i % 3, j / 3, j % 3;
    assert i == a * 3 + b && j == c * 3 + d;
    BandOffset(row, a);
    BandOffset(column, b);
    BandOffset(row, c);
    BandOffset(column, d);
    var ri, ci, rj, cj := BoxStart(row) + a, BoxStart(column) + b, BoxStart(row) + c, BoxStart(column) + d;
    assert BoxCoords(row, column)[i] == Coord(ri, ci) && BoxCoords(row, column)[j] == Coord(rj, cj);
    CoordBijection(ri, ci);
    CoordBijection(rj, cj);
  }

  /*** Pigeonhole: cells with distinct digits cover a set of as many digits. ***/

  /** The digits sol gives the first n cells of cs. */
  ghost function ValuesAt(sol: seq<int>, cs: seq<int>, n: int): set<int>
    requires |sol| == 81 && AllCoords(cs) && 0 <= n <= |cs|
  {
    set i | 0 <= i < n :: sol[cs[i]]
  }

  lemma {:induction false} DistinctValuesSize(sol: seq<int>, cs: seq<int>, n: int)
    requires |sol| == 81 && AllCoords(cs) && 0 <= n <= |cs|
    requires forall i, j :: 0 <= i < n && 0 <= j < n && i != j ==> sol[cs[i]] != sol[cs[j]]
    ensures |ValuesAt(sol, cs, n)| == n
  {
    if n > 0 {
      DistinctValuesSize(sol, cs, n - 1);
      assert ValuesAt(sol, cs, n) == ValuesAt(sol, cs, n - 1) + {sol[cs[n - 1]]};
      assert sol[cs[n - 1]] !in ValuesAt(sol, cs, n - 1);
    }
  }

  /**
   * Cells whose digits are pairwise different and lie in a set u with no
   * more elements than there are cells take every digit of u.
   */
  lemma {:induction false} ValuesCover(sol: seq<int>, cs: seq<int>, u: set<int>, d: int) returns (i: int)
    requires |sol| == 81 && AllCoords(cs)
    requires forall i, j :: 0 <= i < |cs| && 0 <= j < |cs| && i != j ==> sol[cs[i]] != sol[cs[j]]
    requires forall i :: 0 <= i < |cs| ==> sol[cs[i]] in u
    requires |u| <= |cs| && d in u
    ensures 0 <= i < |cs| && sol[cs[i]] == d
  {
    var v := ValuesAt(sol, cs, |cs|);
    DistinctValuesSize(sol, cs, |cs|);
    StrictSubsetSize(v, u);
    assert d in v;
    i :| 0 <= i < |cs| && sol[cs[i]] == d;
  }

  /** Every digit occurs in every group of a solution. */
  lemma {:induction false} GroupHolds(sol: seq<int>, cs: seq<int>, d: int) returns (i: int)
    requires IsSolution(sol) && Group(cs) && IsDigit(d)
    ensures 0 <= i < 9 && sol[cs[i]] == d
  {
    DigitsSize();
    i := ValuesCover(sol, cs, Digits, d);
  }

  /*** A solved board. ***/

  /** The digits of a board, cell by cell (0 for a cell that is not solved). */
  ghost function Values(s: seq<set<int>>): seq<int>
    requires WellFormed(s)
  {
    seq(81, k requires 0 <= k < 81 => ValAt(s, k))
  }

  /** The digits of a board that Grid.isSolved accepts form a solution that board admits. */
  lemma {:induction false} SolvedBoardSolution(s: seq<set<int>>)
    requires WellFormed(s) && BoardSolved(s)
    ensures IsSolution(Values(s)) && Consistent(Values(s), s)
  {
    var sol := Values(s);
    forall k | 0 <= k < 81 ensures IsDigit(sol[k]) && s[k] == {sol[k]} {
      assert SolvedAt(s, k);
    }
    forall j, k | 0 <= j < 81 && 0 <= k < 81 && Sees(j, k) ensures sol[j] != sol[k] {
      assert !DupPair(s, j, k);
    }
  }

  /**
   * A sound run from s0 that ends on a solved board s1 found the only
   * solution s0 admits: the digits of s1 are a solution s0 admits, and every
   * solution s0 admits is that one.
   */
  lemma {:induction false} SolvedRunUnique(s0: seq<set<int>>, s1: seq<set<int>>)
    requires WellFormed(s0) && WellFormed(s1) && Shrinks(s0, s1) && BoardSolved(s1)
    requires Sound(s0, s1, {}, false)
    ensures IsSolution(Values(s1)) && Consistent(Values(s1), s0)
    ensures forall sol :: IsSolution(sol) && Consistent(sol, s0) ==> sol == Values(s1)
  {
    SolvedBoardSolution(s1);
    ConsistentGrows(Values(s1), s0, s1);
    forall sol | IsSolution(sol) && Consistent(sol, s0) ensures sol == Values(s1) {
      assert Consistent(sol, s1);
      forall k | 0 <= k < 81 ensures sol[k] == Values(s1)[k] {
        assert SolvedAt(s1, k);
        assert sol[k] in s1[k];
      }
    }
  }
}
