/**
 * The 9x9 grid of cells (src/Main/Grid.java). The grid owns 81 `Cell`
 * objects in an array indexed by row*9+column; its abstract value is the
 * board `Cands()`, the sequence of the 81 candidate sets. Cell lists are
 * modelled as lists of coordinates in the order the grid builds them.
 */
module Grids {
  import opened Wrappers
  import opened Geometry
  import opened Cells

  /*** The board: 81 candidate sets, each obeying the cell invariant. ***/

  predicate WellFormed(s: seq<set<int>>) {
    |s| == 81 && forall k :: 0 <= k < 81 ==> ValidCands(s[k])
  }

  predicate AllCoords(cs: seq<int>) {
    forall i :: 0 <= i < |cs| ==> IsCoord(cs[i])
  }

  predicate SolvedAt(s: seq<set<int>>, k: int)
    requires 0 <= k < |s|
  {
    |s[k]| == 1
  }

  function ValAt(s: seq<set<int>>, k: int): int
    requires WellFormed(s) && IsCoord(k)
  {
    ValueOf(s[k])
  }

  /** The board of a new grid: every cell holds all nine candidates. */
  function FullBoard(): (s: seq<set<int>>)
    ensures WellFormed(s)
  {
    seq(81, k => Digits)
  }

  /** Grid.getVals: the values of the solved cells among cs, the sentinel left out. */
  function SolvedValues(s: seq<set<int>>, cs: seq<int>): set<int>
    requires WellFormed(s) && AllCoords(cs)
  {
    if cs == [] then {}
    else
      var last := cs[|cs| - 1];
      SolvedValues(s, cs[..|cs| - 1]) + (if SolvedAt(s, last) then {ValAt(s, last)} else {})
  }

  /** v is a solved value of the group exactly when some cell of the group is solved to v. */
  lemma {:induction false} SolvedValuesMembers(s: seq<set<int>>, cs: seq<int>, v: int)
    requires WellFormed(s) && AllCoords(cs)
    ensures v in SolvedValues(s, cs) <==> exists i :: 0 <= i < |cs| && s[cs[i]] == {v}
    decreases |cs|
  {
    if cs != [] {
      var n := |cs| - 1;
      SolvedValuesMembers(s, cs[..n], v);
      if s[cs[n]] == {v} {
        assert |s[cs[n]]| == 1;
      }
      if exists i :: 0 <= i < |cs| && s[cs[i]] == {v} {
        var i :| 0 <= i < |cs| && s[cs[i]] == {v};
        if i < n {
          assert cs[..n][i] == cs[i];
        } else {
          assert |s[cs[n]]| == 1;
        }
      }
      if exists i :: 0 <= i < n && s[cs[..n][i]] == {v} {
        var i :| 0 <= i < n && s[cs[..n][i]] == {v};
        assert cs[i] == cs[..n][i];
      }
    }
  }

  /** On a board where no cell is solved, every group has no solved value. */
  lemma {:induction false} SolvedValuesNone(s: seq<set<int>>, cs: seq<int>)
    requires WellFormed(s) && AllCoords(cs)
    requires forall k :: 0 <= k < 81 ==> !SolvedAt(s, k)
    ensures SolvedValues(s, cs) == {}
    decreases |cs|
  {
    if cs != [] {
      SolvedValuesNone(s, cs[..|cs| - 1]);
    }
  }

  /**
   * How many cells of cs carry digit d as a candidate; with `unsolvedOnly`
   * the solved cells are not counted.
   */
  function Frequency(s: seq<set<int>>, cs: seq<int>, d: int, unsolvedOnly: bool): nat
    requires WellFormed(s) && AllCoords(cs)
  {
    if cs == [] then 0
    else
      var last := cs[|cs| - 1];
      Frequency(s, cs[..|cs| - 1], d, unsolvedOnly)
        + (if d in s[last] && !(unsolvedOnly && SolvedAt(s, last)) then 1 else 0)
  }

  /** A frequency never exceeds the number of cells counted. */
  lemma {:induction false} FrequencyBound(s: seq<set<int>>, cs: seq<int>, d: int, unsolvedOnly: bool)
    requires WellFormed(s) && AllCoords(cs)
    ensures Frequency(s, cs, d, unsolvedOnly) <= |cs|
    decreases |cs|
  {
    if cs != [] {
      FrequencyBound(s, cs[..|cs| - 1], d, unsolvedOnly);
    }
  }

  /** When every cell of the group has all nine candidates, each digit is counted once per cell. */
  lemma {:induction false} FrequencyFull(s: seq<set<int>>, cs: seq<int>, d: int, unsolvedOnly: bool)
    requires WellFormed(s) && AllCoords(cs) && IsDigit(d)
    requires forall i :: 0 <= i < |cs| ==> s[cs[i]] == Digits
    ensures Frequency(s, cs, d, unsolvedOnly) == |cs|
    decreases |cs|
  {
    if cs != [] {
      DigitsSize();
      FrequencyFull(s, cs[..|cs| - 1], d, unsolvedOnly);
    }
  }

  /** Solved cells contribute nothing to the unsolved-only counts. */
  lemma {:induction false} FrequencyAllSolved(s: seq<set<int>>, cs: seq<int>, d: int)
    requires WellFormed(s) && AllCoords(cs)
    requires forall i :: 0 <= i < |cs| ==> SolvedAt(s, cs[i])
    ensures Frequency(s, cs, d, true) == 0
    decreases |cs|
  {
    if cs != [] {
      FrequencyAllSolved(s, cs[..|cs| - 1], d);
    }
  }

  /** A digit has a positive count exactly when some counted cell of the group carries it. */
  lemma {:induction false} FrequencyPositive(s: seq<set<int>>, cs: seq<int>, d: int, unsolvedOnly: bool)
    requires WellFormed(s) && AllCoords(cs)
    ensures Frequency(s, cs, d, unsolvedOnly) > 0 <==>
      exists i :: 0 <= i < |cs| && d in s[cs[i]] && !(unsolvedOnly && SolvedAt(s, cs[i]))
    decreases |cs|
  {
    if cs != [] {
      var n := |cs| - 1;
      FrequencyPositive(s, cs[..n], d, unsolvedOnly);
      if exists i :: 0 <= i < |cs| && d in s[cs[i]] && !(unsolvedOnly && SolvedAt(s, cs[i])) {
        var i :| 0 <= i < |cs| && d in s[cs[i]] && !(unsolvedOnly && SolvedAt(s, cs[i]));
        if i < n {
          assert cs[..n][i] == cs[i];
        }
      }
      if exists i :: 0 <= i < n && d in s[cs[..n][i]] && !(unsolvedOnly && SolvedAt(s, cs[..n][i])) {
        var i :| 0 <= i < n && d in s[cs[..n][i]] && !(unsolvedOnly && SolvedAt(s, cs[..n][i]));
        assert cs[..n][i] == cs[i];
      }
    }
  }

  /** The number of solved cells among coordinates 0..n-1. */
  function SolvedCount(s: seq<set<int>>, n: int): (c: int)
    requires WellFormed(s) && 0 <= n <= 81
    ensures 0 <= c <= n
  {
    if n == 0 then 0 else SolvedCount(s, n - 1) + (if SolvedAt(s, n - 1) then 1 else 0)
  }

  /** All of the first n cells are solved exactly when n of them are counted. */
  lemma {:induction false} SolvedCountFull(s: seq<set<int>>, n: int)
    requires WellFormed(s) && 0 <= n <= 81
    ensures SolvedCount(s, n) == n <==> forall k :: 0 <= k < n ==> SolvedAt(s, k)
  {
    if n > 0 {
      SolvedCountFull(s, n - 1);
    }
  }

  /** A new grid has no solved cell. */
  lemma {:induction false} SolvedCountNone(s: seq<set<int>>, n: int)
    requires WellFormed(s) && 0 <= n <= 81
    requires forall k :: 0 <= k < 81 ==> !SolvedAt(s, k)
    ensures SolvedCount(s, n) == 0
  {
    if n > 0 {
      SolvedCountNone(s, n - 1);
    }
  }

  /** Two cells that see each other are both solved to the same value. */
  predicate DupPair(s: seq<set<int>>, j: int, k: int)
    requires WellFormed(s)
  {
    IsCoord(j) && IsCoord(k) && Sees(j, k) && SolvedAt(s, j) && SolvedAt(s, k) && s[j] == s[k]
  }

  predicate HasDup(s: seq<set<int>>)
    requires WellFormed(s)
  {
    exists j, k :: 0 <= j < 81 && 0 <= k < 81 && DupPair(s, j, k)
  }

  /** Grid.isSolved(): every cell solved and no two peers share a value. */
  predicate BoardSolved(s: seq<set<int>>)
    requires WellFormed(s)
  {
    (forall k :: 0 <= k < 81 ==> SolvedAt(s, k)) && !HasDup(s)
  }

  /** Grid.canSolveSimple: v is a candidate and no cell that sees k is solved to v. */
  predicate PlaceableAt(s: seq<set<int>>, k: int, v: int)
    requires WellFormed(s) && IsCoord(k)
  {
    v in s[k] && forall p :: 0 <= p < 81 && Sees(k, p) ==> s[p] != {v}
  }

  /*** Shrinking boards: the solver's termination measure. ***/

  /** Every candidate set of t is contained in the matching one of s. */
  predicate Shrinks(s: seq<set<int>>, t: seq<set<int>>) {
    |s| == |t| && forall k :: 0 <= k < |s| ==> t[k] <= s[k]
  }

  /** The total number of candidates of cells 0..n-1. */
  function Total(s: seq<set<int>>, n: int): nat
    requires 0 <= n <= |s|
  {
    if n == 0 then 0 else Total(s, n - 1) + |s[n - 1]|
  }

  function TotalCands(s: seq<set<int>>): nat {
    Total(s, |s|)
  }

  lemma StrictSubsetSize(a: set<int>, b: set<int>)
    requires a <= b
    ensures |a| <= |b|
    ensures a != b ==> |a| < |b|
  {
    assert b == a + (b - a);
    if a != b {
      assert b - a != {};
    }
  }

  /** Shrinking never adds candidates in total, and a real change removes some. */
  lemma {:induction false} ShrinkTotal(s: seq<set<int>>, t: seq<set<int>>, n: int)
    requires Shrinks(s, t) && 0 <= n <= |s|
    ensures Total(t, n) <= Total(s, n)
    ensures t[..n] != s[..n] ==> Total(t, n) < Total(s, n)
  {
    if n > 0 {
      ShrinkTotal(s, t, n - 1);
      StrictSubsetSize(t[n - 1], s[n - 1]);
      if t[..n] != s[..n] && t[..n - 1] == s[..n - 1] {
        assert t[n - 1] != s[n - 1] by {
          assert t[..n] == t[..n - 1] + [t[n - 1]];
          assert s[..n] == s[..n - 1] + [s[n - 1]];
        }
      }
      if t[..n - 1] != s[..n - 1] {
        assert t[..n] != s[..n] by {
          assert t[..n][..n - 1] == t[..n - 1];
          assert s[..n][..n - 1] == s[..n - 1];
        }
      }
    }
  }

  /** The whole-board form of ShrinkTotal used as the solver's termination measure. */
  lemma ShrinkTotalCands(s: seq<set<int>>, t: seq<set<int>>)
    requires Shrinks(s, t)
    ensures TotalCands(t) <= TotalCands(s)
    ensures t != s ==> TotalCands(t) < TotalCands(s)
  {
    ShrinkTotal(s, t, |s|);
    assert s[..|s|] == s && t[..|t|] == t;
  }

  class Grid {
    const cells: array<Cell>
    ghost const Repr: set<Cell>

    ghost predicate Valid()
      reads this, cells, Repr
    {
      cells.Length == 81 &&
      (forall k :: 0 <= k < 81 ==> cells[k] in Repr) &&
      (forall k :: 0 <= k < 81 ==> cells[k].Valid()) &&
      (forall j, k :: 0 <= j < k < 81 ==> cells[j] != cells[k])
    }

    /** The board this grid holds: the candidate set of every coordinate. */
    ghost function Cands(): (s: seq<set<int>>)
      reads this, cells, Repr
      requires Valid()
      ensures WellFormed(s)
    {
      seq(cells.Length, k requires 0 <= k < cells.Length reads cells, cells[..] => cells[k].cands)
    }

    /** A new grid: 81 distinct cells, each with all nine candidates. */
    constructor ()
      ensures Valid() && fresh(cells) && fresh(Repr)
      ensures Cands() == FullBoard()
    {
      var c0 := new Cell();
      var a := new Cell[81](_ => c0);
      var i := 0;
      while i < 81
        invariant 0 <= i <= 81
        invariant forall k :: 0 <= k < i ==> fresh(a[k]) && a[k].Valid() && a[k].cands == Digits
        invariant forall j, k :: 0 <= j < k < i ==> a[j] != a[k]
      {
        a[i] := new Cell();
        i := i + 1;
      }
      cells := a;
      Repr := set k | 0 <= k < 81 :: a[k];
    }

    /** Grid.getCell: the cell at (row, column) is the one stored at row*9+column. */
    function GetCell(row: int, column: int): (c: Cell)
      reads this, cells, Repr
      requires Valid() && IsIndex(row) && IsIndex(column)
      ensures c in Repr && c.Valid() && c.cands == Cands()[Coord(row, column)]
    {
      CoordBijection(row, column);
      cells[row * 9 + column]
    }

    /** Solves one cell; every other cell keeps its candidates. */
    method SolveCell(row: int, column: int, value: int) returns (o: Outcome)
      requires Valid() && IsIndex(row) && IsIndex(column)
      modifies Repr
      ensures Valid()
      ensures o.Pass? <==> value in old(Cands())[Coord(row, column)]
      ensures o.Fail? ==> o.error == NotACandidate
      ensures Cands() == if o.Pass? then old(Cands())[Coord(row, column) := {value}] else old(Cands())
    {
      var k := Coord(row, column);
      CoordBijection(row, column);
      o := cells[k].Solve(value);
    }

    /** Removes one candidate of one cell; every other cell keeps its candidates. */
    method RemoveCand(row: int, column: int, value: int) returns (r: Result<bool>)
      requires Valid() && IsIndex(row) && IsIndex(column)
      modifies Repr
      ensures Valid()
      ensures r.Err? <==> old(Cands())[Coord(row, column)] == {value}
      ensures r.Err? ==> r.error == NoCandidatesLeft && Cands() == old(Cands())
      ensures r.Ok? ==> r.value == (value in old(Cands())[Coord(row, column)])
      ensures r.Ok? ==> Cands() == old(Cands())[Coord(row, column) := old(Cands())[Coord(row, column)] - {value}]
    {
      var k := Coord(row, column);
      CoordBijection(row, column);
      r := cells[k].Remove(value);
    }

    /** Grid.getCands(row, column): the candidate set of that cell. */
    function GetCands(row: int, column: int): (s: set<int>)
      reads this, cells, Repr
      requires Valid() && IsIndex(row) && IsIndex(column)
      ensures ValidCands(s) && s == Cands()[Coord(row, column)]
    {
      GetCell(row, column).cands
    }

    /** The candidates of the cell at coordinate k. */
    function CandsAt(k: int): (s: set<int>)
      reads this, cells, Repr
      requires Valid() && IsCoord(k)
      ensures ValidCands(s) && s == Cands()[k]
    {
      cells[k].cands
    }

    /** Grid.getVal: the value of a solved cell, the sentinel 0 for an unsolved one. */
    function GetVal(row: int, column: int): (v: int)
      reads this, cells, Repr
      requires Valid() && IsIndex(row) && IsIndex(column)
      ensures v == 0 <==> !SolvedAt(Cands(), Coord(row, column))
      ensures v != 0 ==> Cands()[Coord(row, column)] == {v}
    {
      GetCell(row, column).Value()
    }

    /** Grid.isSolved(row, column). */
    function IsSolvedAt(row: int, column: int): (b: bool)
      reads this, cells, Repr
      requires Valid() && IsIndex(row) && IsIndex(column)
      ensures b <==> exists v :: IsDigit(v) && Cands()[Coord(row, column)] == {v}
    {
      var c := GetCell(row, column);
      if c.IsSolved() then
        assert IsDigit(c.Value()) && c.cands == {c.Value()};
        true
      else
        false
    }

    /** The values of the solved cells among cs (Grid.getVals). */
    method GetVals(cs: seq<int>) returns (vals: set<int>)
      requires Valid() && AllCoords(cs)
      ensures vals == SolvedValues(Cands(), cs)
    {
      vals := {};
      var i := 0;
      while i < |cs|
        invariant 0 <= i <= |cs|
        invariant vals - {0} == SolvedValues(Cands(), cs[..i])
      {
        assert cs[..i + 1][..i] == cs[..i];
        vals := vals + {cells[cs[i]].Value()};
        i := i + 1;
      }
      assert cs[..i] == cs;
      vals := vals - {0};
    }

    method GetRow(row: int) returns (vals: set<int>)
      requires Valid() && IsIndex(row)
      ensures vals == SolvedValues(Cands(), RowCoords(row))
    {
      var cs := GetRowCells(row);
      vals := GetVals(cs);
    }

    method GetColumn(column: int) returns (vals: set<int>)
      requires Valid() && IsIndex(column)
      ensures vals == SolvedValues(Cands(), ColumnCoords(column))
    {
      var cs := GetColumnCells(column);
      vals := GetVals(cs);
    }

    method GetBox(row: int, column: int) returns (vals: set<int>)
      requires Valid() && IsIndex(row) && IsIndex(column)
      ensures vals == SolvedValues(Cands(), BoxCoords(row, column))
    {
      var cs := GetBoxCells(row, column);
      vals := GetVals(cs);
    }

    /**
     * The frequency map of Grid.getCands(List): each digit 1..9 mapped to the
     * number of cells of cs that carry it (only unsolved cells when `unsolvedOnly`).
     */
    method Frequencies(cs: seq<int>, unsolvedOnly: bool) returns (m: map<int, int>)
      requires Valid() && AllCoords(cs)
      ensures m.Keys == Digits
      ensures forall d :: d in Digits ==> m[d] == Frequency(Cands(), cs, d, unsolvedOnly)
    {
      ghost var s := Cands();
      m := map d | d in Digits :: 0;
      var i := 0;
      while i < |cs|
        invariant 0 <= i <= |cs|
        invariant m.Keys == Digits
        invariant forall x :: x in Digits ==> m[x] == Frequency(s, cs[..i], x, unsolvedOnly)
      {
        assert cs[..i + 1][..i] == cs[..i];
        var c := cells[cs[i]];
        assert c.cands == s[cs[i]];
        if !unsolvedOnly || !c.IsSolved() {
          m := CountCands(m, c.cands);
        }
        i := i + 1;
      }
      assert cs[..i] == cs;
    }

    /** The inner loop of Grid.getCands(List): one more occurrence of every candidate of a cell. */
    static method CountCands(m0: map<int, int>, cands: set<int>) returns (m: map<int, int>)
      requires m0.Keys == Digits
      ensures m.Keys == Digits
      ensures forall x :: x in Digits ==> m[x] == m0[x] + (if x in cands then 1 else 0)
    {
      m := m0;
      var cand := 1;
      while cand <= 9
        invariant 1 <= cand <= 10
        invariant m.Keys == Digits
        invariant forall x :: x in Digits ==> m[x] == m0[x] + (if x < cand && x in cands then 1 else 0)
      {
        if cand in cands {
          m := m[cand := m[cand] + 1];
        }
        cand := cand + 1;
      }
    }

    /** Grid.numCandsRow: digit counts over all nine cells of the row, solved ones included. */
    method NumCandsRow(row: int) returns (m: map<int, int>)
      requires Valid() && IsIndex(row)
      ensures m.Keys == Digits
      ensures forall d :: d in Digits ==> m[d] == Frequency(Cands(), RowCoords(row), d, false) <= 9
    {
      var cs := GetRowCells(row);
      m := Frequencies(cs, false);
      forall d | d in Digits ensures Frequency(Cands(), cs, d, false) <= 9 {
        FrequencyBound(Cands(), cs, d, false);
      }
    }

    method NumCandsColumn(column: int) returns (m: map<int, int>)
      requires Valid() && IsIndex(column)
      ensures m.Keys == Digits
      ensures forall d :: d in Digits ==> m[d] == Frequency(Cands(), ColumnCoords(column), d, false) <= 9
    {
      var cs := GetColumnCells(column);
      m := Frequencies(cs, false);
      forall d | d in Digits ensures Frequency(Cands(), cs, d, false) <= 9 {
        FrequencyBound(Cands(), cs, d, false);
      }
    }

    method NumCandsBox(row: int, column: int) returns (m: map<int, int>)
      requires Valid() && IsIndex(row) && IsIndex(column)
      ensures m.Keys == Digits
      ensures forall d :: d in Digits ==> m[d] == Frequency(Cands(), BoxCoords(row, column), d, false) <= 9
    {
      var cs := GetBoxCells(row, column);
      m := Frequencies(cs, false);
      forall d | d in Digits ensures Frequency(Cands(), cs, d, false) <= 9 {
        FrequencyBound(Cands(), cs, d, false);
      }
    }

    /** Grid.getRowCands: digit counts over the unsolved cells of the row. */
    method GetRowCands(row: int) returns (m: map<int, int>)
      requires Valid() && IsIndex(row)
      ensures m.Keys == Digits
      ensures forall d :: d in Digits ==> m[d] == Frequency(Cands(), RowCoords(row), d, true) <= 9
    {
      var cs := GetRowCells(row);
      m := Frequencies(cs, true);
      forall d | d in Digits ensures Frequency(Cands(), cs, d, true) <= 9 {
        FrequencyBound(Cands(), cs, d, true);
      }
    }

    method GetColumnCands(column: int) returns (m: map<int, int>)
      requires Valid() && IsIndex(column)
      ensures m.Keys == Digits
      ensures forall d :: d in Digits ==> m[d] == Frequency(Cands(), ColumnCoords(column), d, true) <= 9
    {
      var cs := GetColumnCells(column);
      m := Frequencies(cs, true);
      forall d | d in Digits ensures Frequency(Cands(), cs, d, true) <= 9 {
        FrequencyBound(Cands(), cs, d, true);
      }
    }

    method GetBoxCands(row: int, column: int) returns (m: map<int, int>)
      requires Valid() && IsIndex(row) && IsIndex(column)
      ensures m.Keys == Digits
      ensures forall d :: d in Digits ==> m[d] == Frequency(Cands(), BoxCoords(row, column), d, true) <= 9
    {
      var cs := GetBoxCells(row, column);
      m := Frequencies(cs, true);
      forall d | d in Digits ensures Frequency(Cands(), cs, d, true) <= 9 {
        FrequencyBound(Cands(), cs, d, true);
      }
    }

    /** Grid.getCandsMapping: digit counts over the unsolved cells of an arbitrary list. */
    method GetCandsMapping(cs: seq<int>) returns (m: map<int, int>)
      requires Valid() && AllCoords(cs)
      ensures m.Keys == Digits
      ensures forall d :: d in Digits ==> m[d] == Frequency(Cands(), cs, d, true) <= |cs|
    {
      m := Frequencies(cs, true);
      forall d | d in Digits ensures Frequency(Cands(), cs, d, true) <= |cs| {
        FrequencyBound(Cands(), cs, d, true);
      }
    }

    /** Grid.getRowCells: the row's coordinates, left to right. */
    static method GetRowCells(row: int) returns (cs: seq<int>)
      requires IsIndex(row)
      ensures cs == RowCoords(row) && AllCoords(cs)
    {
      cs := [];
      var c := 0;
      while c < 9
        invariant 0 <= c <= 9
        invariant cs == RowCoords(row)[..c]
      {
        cs := cs + [row * 9 + c];
        c := c + 1;
      }
      forall p | p in cs ensures IsCoord(p) {
        RowCoordsMembers(row, p);
      }
    }

    /** Grid.getColumnCells: the column's coordinates, top to bottom. */
    static method GetColumnCells(column: int) returns (cs: seq<int>)
      requires IsIndex(column)
      ensures cs == ColumnCoords(column) && AllCoords(cs)
    {
      cs := [];
      var r := 0;
      while r < 9
        invariant 0 <= r <= 9
        invariant cs == ColumnCoords(column)[..r]
      {
        cs := cs + [r * 9 + column];
        r := r + 1;
      }
      forall p | p in cs ensures IsCoord(p) {
        ColumnCoordsMembers(column, p);
      }
    }

    /** Grid.getBoxCells: the box's coordinates, row by row. */
    static method GetBoxCells(row: int, column: int) returns (cs: seq<int>)
      requires IsIndex(row) && IsIndex(column)
      ensures cs == BoxCoords(row, column) && AllCoords(cs)
    {
      cs := [];
      var rX := row / 3;
      var cX := column / 3;
      var r := rX * 3;
      while r < rX * 3 + 3
        invariant rX * 3 <= r <= rX * 3 + 3
        invariant cs == BoxCoords(row, column)[..(r - rX * 3) * 3]
      {
        var c := cX * 3;
        while c < cX * 3 + 3
          invariant cX * 3 <= c <= cX * 3 + 3
          invariant cs == BoxCoords(row, column)[..(r - rX * 3) * 3 + (c - cX * 3)]
        {
          ghost var i := (r - rX * 3) * 3 + (c - cX * 3);
          assert i / 3 == r - rX * 3 && i % 3 == c - cX * 3;
          assert BoxCoords(row, column)[..i + 1] == BoxCoords(row, column)[..i] + [r * 9 + c];
          cs := cs + [r * 9 + c];
          c := c + 1;
        }
        r := r + 1;
      }
      forall p | p in cs ensures IsCoord(p) {
        BoxCoordsMembers(row, column, p);
      }
    }

    /** Grid.numSolved: how many cells hold exactly one candidate. */
    method NumSolved() returns (n: int)
      requires Valid()
      ensures n == SolvedCount(Cands(), 81)
      ensures n == 81 <==> forall k :: 0 <= k < 81 ==> SolvedAt(Cands(), k)
    {
      n := 0;
      var k := 0;
      while k < 81
        invariant 0 <= k <= 81
        invariant n == SolvedCount(Cands(), k)
      {
        if cells[k].IsSolved() {
          n := n + 1;
        }
        k := k + 1;
      }
      SolvedCountFull(Cands(), 81);
    }

    /** Grid.hasDuplicate: whether two solved cells that see each other hold the same value. */
    method HasDuplicate() returns (b: bool)
      requires Valid()
      ensures b <==> HasDup(Cands())
    {
      var j := 0;
      while j < 81
        invariant 0 <= j <= 81
        invariant forall j', k :: 0 <= j' < j ==> !DupPair(Cands(), j', k)
      {
        var k := 0;
        while k < 81
          invariant 0 <= k <= 81
          invariant forall j', k' :: 0 <= j' < j ==> !DupPair(Cands(), j', k')
          invariant forall k' :: 0 <= k' < k ==> !DupPair(Cands(), j, k')
        {
          if Sees(j, k) && cells[j].IsSolved() && cells[k].IsSolved() && cells[j].cands == cells[k].cands {
            assert DupPair(Cands(), j, k);
            return true;
          }
          k := k + 1;
        }
        j := j + 1;
      }
      return false;
    }

    /** Grid.isSolved(): all 81 cells solved and no duplicate. */
    method IsSolved() returns (b: bool)
      requires Valid()
      ensures b <==> BoardSolved(Cands())
    {
      var n := NumSolved();
      var dup := HasDuplicate();
      b := n == 81 && !dup;
    }

    /** Grid.equals: two grids are equal iff every cell has the same candidates. */
    predicate Equals(other: Grid)
      reads this, cells, Repr, other, other.cells, other.Repr
      requires Valid() && other.Valid()
    {
      forall k :: 0 <= k < 81 ==> cells[k].cands == other.cells[k].cands
    }

    /** Grid.equals compares the boards. */
    lemma EqualsBoards(other: Grid)
      requires Valid() && other.Valid()
      ensures Equals(other) <==> Cands() == other.Cands()
    {
      var s, t := Cands(), other.Cands();
      assert forall k :: 0 <= k < 81 ==> s[k] == cells[k].cands && t[k] == other.cells[k].cands;
      if Equals(other) {
        assert forall k :: 0 <= k < 81 ==> s[k] == t[k];
      }
    }

    /** Grid.canSolveSimple: value is a candidate and no cell that sees (row, column) is solved to it. */
    method CanSolveSimple(row: int, column: int, value: int) returns (b: bool)
      requires Valid() && IsIndex(row) && IsIndex(column)
      ensures b <==> PlaceableAt(Cands(), Coord(row, column), value)
    {
      ghost var s := Cands();
      var k := Coord(row, column);
      CoordBijection(row, column);
      if value !in cells[k].cands {
        return false;
      }
      var seen := SeenCoords(row, column);
      var i := 0;
      while i < |seen|
        invariant 0 <= i <= |seen|
        invariant forall p :: p in seen[..i] && 0 <= p < 81 ==> s[p] != {value}
      {
        assert seen[..i + 1] == seen[..i] + [seen[i]];
        var p := seen[i];
        assert p in seen;
        if cells[p].cands == {value} {
          assert Sees(k, p) && s[p] == {value};
          return false;
        }
        i := i + 1;
      }
      assert seen[..i] == seen;
      forall p | 0 <= p < 81 && Sees(k, p) ensures s[p] != {value} {
        assert p in seen;
      }
      return true;
    }

    /** Grid.clone: a new grid of new cells holding the same board. */
    method Clone() returns (g: Grid)
      requires Valid()
      ensures g.Valid() && fresh(g) && fresh(g.cells) && fresh(g.Repr)
      ensures g.Cands() == Cands()
    {
      g := new Grid();
      var k := 0;
      while k < 81
        invariant 0 <= k <= 81
        invariant g.Valid() && fresh(g.cells) && fresh(g.Repr)
        invariant forall j :: 0 <= j < k ==> g.Cands()[j] == Cands()[j]
      {
        g.cells[k].SetCandidates(cells[k].cands);
        k := k + 1;
      }
    }
  }
}
