/**
 * Positions on the 9x9 board. A cell is named by its coordinate row*9+column
 * (Grid.getCell), the groups of the board are lists of coordinates in the
 * order the Java grid builds its cell lists, and `Sees` is the "shares a row,
 * column or box" relation that every deduction rule relies on.
 */
module Geometry {

  const Digits: set<int> := {1, 2, 3, 4, 5, 6, 7, 8, 9}

  predicate IsDigit(v: int) { 1 <= v <= 9 }
  predicate IsIndex(i: int) { 0 <= i < 9 }
  predicate IsCoord(k: int) { 0 <= k < 81 }

  /** Grid.getCell stores cell (row, column) at index row*9+column. */
  function Coord(row: int, column: int): int { row * 9 + column }
  function RowOf(k: int): int { k / 9 }
  function ColumnOf(k: int): int { k % 9 }
  /** First row (or column) of the band (or stack) holding row (or column) i. */
  function BoxStart(i: int): int { i / 3 * 3 }

  lemma CoordBijection(row: int, column: int)
    requires IsIndex(row) && IsIndex(column)
    ensures IsCoord(Coord(row, column))
    ensures RowOf(Coord(row, column)) == row && ColumnOf(Coord(row, column)) == column
  {}

  lemma CoordInverse(k: int)
    requires IsCoord(k)
    ensures IsIndex(RowOf(k)) && IsIndex(ColumnOf(k)) && Coord(RowOf(k), ColumnOf(k)) == k
  {}

  lemma DigitsSize()
    ensures |Digits| == 9
  {}

  /** Any set of digits has at most nine elements. */
  lemma {:induction false} DigitSubsetSize(s: set<int>)
    requires s <= Digits
    ensures |s| <= 9
  {
    DigitsSize();
    SubsetSize(s, Digits);
  }

  lemma SubsetSize(a: set<int>, b: set<int>)
    requires a <= b
    ensures |a| <= |b|
  {
    assert b == a + (b - a);
  }

  /** The cells of one row, left to right (Grid.getRowCells). */
  function RowCoords(row: int): (s: seq<int>)
    requires IsIndex(row)
    ensures |s| == 9 && forall i :: 0 <= i < 9 ==> IsCoord(s[i])
  {
    seq(9, c requires 0 <= c < 9 => Coord(row, c))
  }

  /** The cells of one column, top to bottom (Grid.getColumnCells). */
  function ColumnCoords(column: int): (s: seq<int>)
    requires IsIndex(column)
    ensures |s| == 9 && forall i :: 0 <= i < 9 ==> IsCoord(s[i])
  {
    seq(9, r requires 0 <= r < 9 => Coord(r, column))
  }

  /** The cells of the box holding (row, column), row by row (Grid.getBoxCells). */
  function BoxCoords(row: int, column: int): (s: seq<int>)
    requires IsIndex(row) && IsIndex(column)
    ensures |s| == 9 && forall i :: 0 <= i < 9 ==> IsCoord(s[i])
  {
    seq(9, i requires 0 <= i < 9 => Coord(BoxStart(row) + i / 3, BoxStart(column) + i % 3))
  }

  predicate SameBox(j: int, k: int) {
    RowOf(j) / 3 == RowOf(k) / 3 && ColumnOf(j) / 3 == ColumnOf(k) / 3
  }

  /** Two different cells that share a row, a column or a box. */
  predicate Sees(j: int, k: int) {
    j != k && (RowOf(j) == RowOf(k) || ColumnOf(j) == ColumnOf(k) || SameBox(j, k))
  }

  lemma {:induction false} RowCoordsMembers(row: int, p: int)
    requires IsIndex(row)
    ensures p in RowCoords(row) <==> IsCoord(p) && RowOf(p) == row
  {
    if IsCoord(p) && RowOf(p) == row {
      assert RowCoords(row)[ColumnOf(p)] == p;
    }
  }

  lemma {:induction false} ColumnCoordsMembers(column: int, p: int)
    requires IsIndex(column)
    ensures p in ColumnCoords(column) <==> IsCoord(p) && ColumnOf(p) == column
  {
    if IsCoord(p) && ColumnOf(p) == column {
      assert ColumnCoords(column)[RowOf(p)] == p;
    }
  }

  /** Offsets 0..2 from the start of a band stay inside that band. */
  lemma BandOffset(i: int, d: int)
    requires IsIndex(i) && 0 <= d < 3
    ensures IsIndex(BoxStart(i) + d) && (BoxStart(i) + d) / 3 == i / 3
  {}

  lemma {:induction false} BoxCoordsSound(row: int, column: int, i: int)
    requires IsIndex(row) && IsIndex(column) && 0 <= i < 9
    ensures IsCoord(BoxCoords(row, column)[i])
    ensures SameBox(BoxCoords(row, column)[i], Coord(row, column))
  {
    var a, b := i / 3, i % 3;
    assert 0 <= a < 3 && 0 <= b < 3;
    BandOffset(row, a);
    BandOffset(column, b);
    var r, c := BoxStart(row) + a, BoxStart(column) + b;
    assert BoxCoords(row, column)[i] == Coord(r, c);
    CoordBijection(r, c);
    CoordBijection(row, column);
  }

  lemma {:induction false} BoxCoordsComplete(row: int, column: int, p: int)
    requires IsIndex(row) && IsIndex(column)
    requires IsCoord(p) && SameBox(p, Coord(row, column))
    ensures p in BoxCoords(row, column)
  {
    var r, c := RowOf(p), ColumnOf(p);
    assert IsIndex(r) && IsIndex(c) && p == Coord(r, c) by { CoordInverse(p); }
    assert r / 3 == row / 3 && c / 3 == column / 3 by { CoordBijection(row, column); }
    var i := BoxPosition(row, column, r, c);
  }

  /** Cell (r, c) of the box holding (row, column) is entry (r % 3) * 3 + c % 3 of its list. */
  lemma {:induction false} BoxPosition(row: int, column: int, r: int, c: int) returns (i: int)
    requires IsIndex(row) && IsIndex(column) && IsIndex(r) && IsIndex(c)
    requires r / 3 == row / 3 && c / 3 == column / 3
    ensures 0 <= i < 9 && BoxCoords(row, column)[i] == Coord(r, c)
  {
    var a, b := r % 3, c % 3;
    assert BoxStart(row) + a == r && BoxStart(column) + b == c;
    i := a * 3 + b;
    assert 0 <= i < 9 && i / 3 == a && i % 3 == b;
  }

  lemma {:induction false} BoxCoordsMembers(row: int, column: int, p: int)
    requires IsIndex(row) && IsIndex(column)
    ensures p in BoxCoords(row, column) <==> IsCoord(p) && SameBox(p, Coord(row, column))
  {
    var s := BoxCoords(row, column);
    if p in s {
      var i :| 0 <= i < 9 && s[i] == p;
      BoxCoordsSound(row, column, i);
    }
    if IsCoord(p) && SameBox(p, Coord(row, column)) {
      BoxCoordsComplete(row, column, p);
    }
  }

  /** The coordinates of the row, the column and the box through cell k. */
  function PeerGroups(k: int): (s: seq<int>)
    requires IsCoord(k)
    ensures |s| == 27
  {
    RowCoords(RowOf(k)) + ColumnCoords(ColumnOf(k)) + BoxCoords(RowOf(k), ColumnOf(k))
  }

  /** The three groups through k hold exactly k and the cells k sees. */
  lemma {:induction false} PeerGroupsMembers(k: int, p: int)
    requires IsCoord(k)
    ensures p in PeerGroups(k) <==> IsCoord(p) && (p == k || Sees(k, p))
  {
    RowCoordsMembers(RowOf(k), p);
    ColumnCoordsMembers(ColumnOf(k), p);
    BoxCoordsMembers(RowOf(k), ColumnOf(k), p);
    CoordInverse(k);
  }

  /** The cells seen by k, in ascending coordinate order, from coordinate `from` on. */
  function SeenFrom(k: int, from: nat): (s: seq<int>)
    requires from <= 81
    ensures forall p :: p in s <==> from <= p < 81 && Sees(k, p)
    decreases 81 - from
  {
    if from == 81 then []
    else if Sees(k, from) then [from] + SeenFrom(k, from + 1)
    else SeenFrom(k, from + 1)
  }

  /** Grid.getSeenCells: the cells sharing a row, column or box with (row, column). */
  function SeenCoords(row: int, column: int): (s: seq<int>)
    requires IsIndex(row) && IsIndex(column)
    ensures forall p :: p in s <==> IsCoord(p) && Sees(Coord(row, column), p)
  {
    SeenFrom(Coord(row, column), 0)
  }

  /** Seeing is symmetric. */
  lemma SeesSymmetric(j: int, k: int)
    ensures Sees(j, k) <==> Sees(k, j)
  {}
}
