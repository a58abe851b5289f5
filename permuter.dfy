/**
 * Geometric transforms and digit relabelling of a grid (src/Main/Permuter.java).
 * Every transform builds a new grid and never writes to its argument. Its
 * effect is described by `SourceOf`: the cell of the input that is copied
 * into a given cell of the result.
 */
module Permuters {
  import opened Geometry
  import opened Cells
  import opened Grids

  /** The transforms of the Java class, with their index arguments. */
  datatype Transform =
    | RotateClockwise
    | FlipHorizontal
    | FlipVertical
    | ReflectOrigin
    | ReflectBottomTop
    | ReflectTopBottom
    | SwapBoxRows(rowOne: int, rowTwo: int)
    | SwapBoxColumns(columnOne: int, columnTwo: int)
    | SwapRowsInBoxRow(boxRow: int, rowAddOne: int, rowAddTwo: int)
    | SwapColumnsInBoxColumn(boxColumn: int, columnAddOne: int, columnAddTwo: int)

  predicate IsBoxIndex(i: int) { 0 <= i < 3 }

  /** The documented preconditions: every box index and offset lies in [0,2]. */
  predicate Admissible(t: Transform) {
    match t
    case SwapBoxRows(a, b) => IsBoxIndex(a) && IsBoxIndex(b)
    case SwapBoxColumns(a, b) => IsBoxIndex(a) && IsBoxIndex(b)
    case SwapRowsInBoxRow(band, a, b) => IsBoxIndex(band) && IsBoxIndex(a) && IsBoxIndex(b)
    case SwapColumnsInBoxColumn(stack, a, b) => IsBoxIndex(stack) && IsBoxIndex(a) && IsBoxIndex(b)
    case _ => true
  }

  /**
   * Where a row (or column) x reads from when bands (or stacks) a and b trade
   * places. When a == b the second copy of the Java loop wins, which reads x
   * from itself.
   */
  function BandSwap(a: int, b: int, x: int): (y: int)
    requires IsBoxIndex(a) && IsBoxIndex(b) && IsIndex(x)
    ensures IsIndex(y) && y % 3 == x % 3
  {
    if x / 3 == b then a * 3 + x % 3
    else if x / 3 == a then b * 3 + x % 3
    else x
  }

  /** Where a row (or column) x reads from when lines band*3+a and band*3+b trade places. */
  function LineSwap(band: int, a: int, b: int, x: int): (y: int)
    requires IsBoxIndex(band) && IsBoxIndex(a) && IsBoxIndex(b) && IsIndex(x)
    ensures IsIndex(y) && y / 3 == x / 3
  {
    var one, two := band * 3 + a, band * 3 + b;
    if x == one then two else if x == two then one else x
  }

  /** The (row, column) of the input cell that ends up at (row, column) of the result. */
  function SourceOf(t: Transform, row: int, column: int): (rc: (int, int))
    requires Admissible(t) && IsIndex(row) && IsIndex(column)
    ensures IsIndex(rc.0) && IsIndex(rc.1)
  {
    match t
    case RotateClockwise => (8 - column, row)
    case FlipHorizontal => (8 - row, column)
    case FlipVertical => (row, 8 - column)
    case ReflectOrigin => (8 - row, 8 - column)
    case ReflectBottomTop => (8 - column, 8 - row)
    case ReflectTopBottom => (column, row)
    case SwapBoxRows(a, b) => (BandSwap(a, b, row), column)
    case SwapBoxColumns(a, b) => (row, BandSwap(a, b, column))
    case SwapRowsInBoxRow(band, a, b) => (LineSwap(band, a, b, row), column)
    case SwapColumnsInBoxColumn(stack, a, b) => (row, LineSwap(stack, a, b, column))
  }

  /** SourceOf on coordinates. */
  function Source(t: Transform, k: int): (j: int)
    requires Admissible(t) && IsCoord(k)
    ensures IsCoord(j)
  {
    CoordInverse(k);
    var rc := SourceOf(t, RowOf(k), ColumnOf(k));
    CoordBijection(rc.0, rc.1);
    Coord(rc.0, rc.1)
  }

  /** The board a transform produces from board s. */
  function Apply(t: Transform, s: seq<set<int>>): (r: seq<set<int>>)
    requires Admissible(t) && WellFormed(s)
    ensures WellFormed(r)
    ensures forall k :: 0 <= k < 81 ==> r[k] == s[Source(t, k)]
  {
    seq(81, k requires 0 <= k < 81 => s[Source(t, k)])
  }

  /** Cell (row, column) of the result is the SourceOf cell of the input. */
  lemma ApplyAt(t: Transform, s: seq<set<int>>, row: int, column: int)
    requires Admissible(t) && WellFormed(s) && IsIndex(row) && IsIndex(column)
    ensures Apply(t, s)[Coord(row, column)] == s[Coord(SourceOf(t, row, column).0, SourceOf(t, row, column).1)]
  {
    CoordBijection(row, column);
  }

  /*** Round trips ***/

  /** Source on the coordinate of (row, column) is the coordinate of SourceOf. */
  lemma {:induction false} SourceAt(t: Transform, row: int, column: int)
    requires Admissible(t) && IsIndex(row) && IsIndex(column)
    ensures Source(t, Coord(row, column)) == Coord(SourceOf(t, row, column).0, SourceOf(t, row, column).1)
  {
    CoordBijection(row, column);
  }

  /** Taking a row back and forth through a band swap returns it. */
  lemma {:induction false} BandSwapTwice(a: int, b: int, x: int)
    requires IsBoxIndex(a) && IsBoxIndex(b) && IsIndex(x)
    ensures BandSwap(a, b, BandSwap(a, b, x)) == x
  {
    assert (a * 3 + x % 3) / 3 == a && (b * 3 + x % 3) / 3 == b;
    assert x == x / 3 * 3 + x % 3;
  }

  /** A band swapped with itself reads every row from its own place. */
  lemma {:induction false} BandSwapSelf(a: int, x: int)
    requires IsBoxIndex(a) && IsIndex(x)
    ensures BandSwap(a, a, x) == x
  {
    assert x == x / 3 * 3 + x % 3;
  }

  /** Every transform but the rotation undoes itself on (row, column). */
  lemma {:induction false} SourceOfInvolution(t: Transform, row: int, column: int)
    requires Admissible(t) && IsIndex(row) && IsIndex(column) && !t.RotateClockwise?
    ensures SourceOf(t, SourceOf(t, row, column).0, SourceOf(t, row, column).1) == (row, column)
  {
    match t
    case SwapBoxRows(a, b) => BandSwapTwice(a, b, row);
    case SwapBoxColumns(a, b) => BandSwapTwice(a, b, column);
    case _ =>
  }

  /** Every transform but the rotation undoes itself cell by cell. */
  lemma {:induction false} SourceInvolution(t: Transform, k: int)
    requires Admissible(t) && IsCoord(k) && !t.RotateClockwise?
    ensures Source(t, Source(t, k)) == k
  {
    var row, column := RowOf(k), ColumnOf(k);
    assert IsIndex(row) && IsIndex(column) && k == Coord(row, column) by { CoordInverse(k); }
    var rc := SourceOf(t, row, column);
    SourceAt(t, row, column);
    SourceAt(t, rc.0, rc.1);
    SourceOfInvolution(t, row, column);
  }

  /** Applying any transform other than the rotation twice gives back the board. */
  lemma Involution(t: Transform, s: seq<set<int>>)
    requires Admissible(t) && WellFormed(s) && !t.RotateClockwise?
    ensures Apply(t, Apply(t, s)) == s
  {
    forall k | 0 <= k < 81 ensures Apply(t, Apply(t, s))[k] == s[k] {
      SourceInvolution(t, k);
    }
  }

  /** Two clockwise quarter turns send each cell to its mirror through the centre. */
  lemma {:induction false} SourceHalfTurn(k: int)
    requires IsCoord(k)
    ensures Source(RotateClockwise, Source(RotateClockwise, k)) == Source(ReflectOrigin, k)
  {
    var row, column := RowOf(k), ColumnOf(k);
    assert IsIndex(row) && IsIndex(column) && k == Coord(row, column) by { CoordInverse(k); }
    SourceAt(RotateClockwise, row, column);
    SourceAt(RotateClockwise, 8 - column, row);
    SourceAt(ReflectOrigin, row, column);
  }

  /** Two clockwise quarter turns are the reflection through the centre. */
  lemma {:induction false} HalfTurn(s: seq<set<int>>)
    requires WellFormed(s)
    ensures Apply(RotateClockwise, Apply(RotateClockwise, s)) == Apply(ReflectOrigin, s)
  {
    forall k | 0 <= k < 81
      ensures Apply(RotateClockwise, Apply(RotateClockwise, s))[k] == Apply(ReflectOrigin, s)[k]
    {
      SourceHalfTurn(k);
    }
  }

  /** The cell of the input that the counter-clockwise quarter turn brings to k: result(r, c) is input(c, 8 - r). */
  function TurnBack(k: int): (j: int)
    requires IsCoord(k)
    ensures IsCoord(j)
  {
    CoordInverse(k);
    CoordBijection(ColumnOf(k), 8 - RowOf(k));
    Coord(ColumnOf(k), 8 - RowOf(k))
  }

  /** The board rotateCounterClockwise produces from board s. */
  function RotateCounterClockwiseBoard(s: seq<set<int>>): (r: seq<set<int>>)
    requires WellFormed(s)
    ensures WellFormed(r)
    ensures forall k :: 0 <= k < 81 ==> r[k] == s[TurnBack(k)]
  {
    seq(81, k requires 0 <= k < 81 => s[TurnBack(k)])
  }

  /** Cell by cell, the counter-clockwise turn and the clockwise turn undo each other. */
  lemma {:induction false} TurnBackRoundTrip(k: int)
    requires IsCoord(k)
    ensures Source(RotateClockwise, TurnBack(k)) == k
    ensures TurnBack(Source(RotateClockwise, k)) == k
  {
    var row, column := RowOf(k), ColumnOf(k);
    assert IsIndex(row) && IsIndex(column) && k == Coord(row, column) by { CoordInverse(k); }
    assert TurnBack(k) == Coord(column, 8 - row);
    SourceAt(RotateClockwise, column, 8 - row);
    SourceAt(RotateClockwise, row, column);
    CoordBijection(8 - column, row);
  }

  /** Cell by cell, three clockwise quarter turns are one counter-clockwise turn. */
  lemma {:induction false} SourceThreeTurns(k: int)
    requires IsCoord(k)
    ensures Source(RotateClockwise, Source(RotateClockwise, Source(RotateClockwise, k))) == TurnBack(k)
  {
    var row, column := RowOf(k), ColumnOf(k);
    assert IsIndex(row) && IsIndex(column) && k == Coord(row, column) by { CoordInverse(k); }
    SourceAt(RotateClockwise, row, column);
    SourceHalfTurn(Coord(8 - column, row));
    SourceAt(ReflectOrigin, 8 - column, row);
  }

  /** rotateCounterClockwise is three calls of rotateClockwise. */
  lemma {:induction false} ThreeQuarterTurns(s: seq<set<int>>)
    requires WellFormed(s)
    ensures Apply(RotateClockwise, Apply(RotateClockwise, Apply(RotateClockwise, s))) == RotateCounterClockwiseBoard(s)
  {
    forall k | 0 <= k < 81
      ensures Apply(RotateClockwise, Apply(RotateClockwise, Apply(RotateClockwise, s)))[k]
           == RotateCounterClockwiseBoard(s)[k]
    {
      SourceThreeTurns(k);
    }
  }

  /** Clockwise then counter-clockwise (and the reverse) leaves the board as it was. */
  lemma {:induction false} RotationRoundTrip(s: seq<set<int>>)
    requires WellFormed(s)
    ensures RotateCounterClockwiseBoard(Apply(RotateClockwise, s)) == s
    ensures Apply(RotateClockwise, RotateCounterClockwiseBoard(s)) == s
  {
    forall k | 0 <= k < 81 ensures RotateCounterClockwiseBoard(Apply(RotateClockwise, s))[k] == s[k] {
      TurnBackRoundTrip(k);
    }
    forall k | 0 <= k < 81 ensures Apply(RotateClockwise, RotateCounterClockwiseBoard(s))[k] == s[k] {
      TurnBackRoundTrip(k);
    }
  }

  /** Cell by cell, the quarter turn reads through the left-right flip and then the transpose. */
  lemma {:induction false} SourceTransposeThenFlip(k: int)
    requires IsCoord(k)
    ensures Source(RotateClockwise, k) == Source(ReflectTopBottom, Source(FlipVertical, k))
  {
    var row, column := RowOf(k), ColumnOf(k);
    assert IsIndex(row) && IsIndex(column) && k == Coord(row, column) by { CoordInverse(k); }
    SourceAt(RotateClockwise, row, column);
    SourceAt(FlipVertical, row, column);
    SourceAt(ReflectTopBottom, row, 8 - column);
  }

  /** The quarter turn is the transpose followed by a left-right flip. */
  lemma {:induction false} RotateIsTransposeThenFlip(s: seq<set<int>>)
    requires WellFormed(s)
    ensures Apply(RotateClockwise, s) == Apply(FlipVertical, Apply(ReflectTopBottom, s))
  {
    forall k | 0 <= k < 81
      ensures Apply(RotateClockwise, s)[k] == Apply(FlipVertical, Apply(ReflectTopBottom, s))[k]
    {
      SourceTransposeThenFlip(k);
    }
  }

  /*** What the swaps leave alone ***/

  /** A swap of an index with itself reads every cell from its own place. */
  lemma {:induction false} SourceWithItself(t: Transform, k: int)
    requires Admissible(t) && IsCoord(k)
    requires t.SwapBoxRows? ==> t.rowOne == t.rowTwo
    requires t.SwapBoxColumns? ==> t.columnOne == t.columnTwo
    requires t.SwapRowsInBoxRow? ==> t.rowAddOne == t.rowAddTwo
    requires t.SwapColumnsInBoxColumn? ==> t.columnAddOne == t.columnAddTwo
    requires t.SwapBoxRows? || t.SwapBoxColumns? || t.SwapRowsInBoxRow? || t.SwapColumnsInBoxColumn?
    ensures Source(t, k) == k
  {
    var row, column := RowOf(k), ColumnOf(k);
    assert IsIndex(row) && IsIndex(column) && k == Coord(row, column) by { CoordInverse(k); }
    SourceAt(t, row, column);
    match t
    case SwapBoxRows(a, _) => BandSwapSelf(a, row);
    case SwapBoxColumns(a, _) => BandSwapSelf(a, column);
    case _ =>
  }

  /** Swapping a band or stack with itself, or a row or column with itself, changes nothing. */
  lemma {:induction false} SwapWithItself(t: Transform, s: seq<set<int>>)
    requires Admissible(t) && WellFormed(s)
    requires t.SwapBoxRows? ==> t.rowOne == t.rowTwo
    requires t.SwapBoxColumns? ==> t.columnOne == t.columnTwo
    requires t.SwapRowsInBoxRow? ==> t.rowAddOne == t.rowAddTwo
    requires t.SwapColumnsInBoxColumn? ==> t.columnAddOne == t.columnAddTwo
    requires t.SwapBoxRows? || t.SwapBoxColumns? || t.SwapRowsInBoxRow? || t.SwapColumnsInBoxColumn?
    ensures Apply(t, s) == s
  {
    forall k | 0 <= k < 81 ensures Apply(t, s)[k] == s[k] {
      SourceWithItself(t, k);
    }
  }

  /** A row swap leaves every row outside the swapped bands or rows as it was. */
  lemma {:induction false} RowSwapFrame(t: Transform, s: seq<set<int>>, k: int)
    requires Admissible(t) && WellFormed(s) && IsCoord(k)
    requires t.SwapBoxRows? ==> RowOf(k) / 3 != t.rowOne && RowOf(k) / 3 != t.rowTwo
    requires t.SwapRowsInBoxRow? ==>
      RowOf(k) != t.boxRow * 3 + t.rowAddOne && RowOf(k) != t.boxRow * 3 + t.rowAddTwo
    requires t.SwapBoxRows? || t.SwapRowsInBoxRow?
    ensures Apply(t, s)[k] == s[k]
  {
    CoordInverse(k);
  }

  /** A column swap leaves every column outside the swapped stacks or columns as it was. */
  lemma {:induction false} ColumnSwapFrame(t: Transform, s: seq<set<int>>, k: int)
    requires Admissible(t) && WellFormed(s) && IsCoord(k)
    requires t.SwapBoxColumns? ==> ColumnOf(k) / 3 != t.columnOne && ColumnOf(k) / 3 != t.columnTwo
    requires t.SwapColumnsInBoxColumn? ==>
      ColumnOf(k) != t.boxColumn * 3 + t.columnAddOne && ColumnOf(k) != t.boxColumn * 3 + t.columnAddTwo
    requires t.SwapBoxColumns? || t.SwapColumnsInBoxColumn?
    ensures Apply(t, s)[k] == s[k]
  {
    CoordInverse(k);
  }

  /*** Digit relabelling ***/

  /** A shuffle of 1..9: p[d-1] is the new name of digit d. */
  predicate IsDigitPermutation(p: seq<int>) {
    |p| == 9 && (forall i :: 0 <= i < 9 ==> IsDigit(p[i])) &&
    (forall i, j :: 0 <= i < j < 9 ==> p[i] != p[j])
  }

  /** The new names of the digits d..9 of s. */
  function ImageFrom(s: set<int>, p: seq<int>, d: int): set<int>
    requires |p| == 9 && 1 <= d <= 10
    decreases 10 - d
  {
    if d == 10 then {}
    else (if d in s then {p[d - 1]} else {}) + ImageFrom(s, p, d + 1)
  }

  /** The candidates of s renamed by p. */
  function Image(s: set<int>, p: seq<int>): set<int>
    requires |p| == 9
  {
    set d | d in s && IsDigit(d) :: p[d - 1]
  }

  /** Exactly the new names of the digits d..9 of s make up ImageFrom. */
  lemma {:induction false} ImageFromMembers(s: set<int>, p: seq<int>, d: int, v: int)
    requires |p| == 9 && 1 <= d <= 10
    ensures v in ImageFrom(s, p, d) <==> exists e :: d <= e <= 9 && e in s && p[e - 1] == v
    decreases 10 - d
  {
    if d < 10 {
      ImageFromMembers(s, p, d + 1, v);
    }
  }

  /** The digit-by-digit construction from 1 builds the image. */
  lemma ImageIsImageFrom(s: set<int>, p: seq<int>)
    requires |p| == 9
    ensures Image(s, p) == ImageFrom(s, p, 1)
  {
    forall v ensures v in Image(s, p) <==> v in ImageFrom(s, p, 1) {
      ImageFromMembers(s, p, 1, v);
    }
  }

  /** The digits d..9 of s. */
  function DigitsFrom(s: set<int>, d: int): set<int> {
    set e | e in s && d <= e <= 9
  }

  /** A set of digits is its own digits from 1 on. */
  lemma DigitsFromOne(s: set<int>)
    requires s <= Digits
    ensures DigitsFrom(s, 1) == s
  {
  }

  /** Every digit e >= d of s is renamed into the image. */
  lemma {:induction false} ImageFromHas(s: set<int>, p: seq<int>, d: int, e: int)
    requires |p| == 9 && 1 <= d <= e <= 9 && e in s
    ensures p[e - 1] in ImageFrom(s, p, d)
    decreases 10 - d
  {
    if d < e {
      ImageFromHas(s, p, d + 1, e);
    }
  }

  /** The image holds only new names of digits. */
  lemma {:induction false} ImageFromDigits(s: set<int>, p: seq<int>, d: int)
    requires IsDigitPermutation(p) && 1 <= d <= 10
    ensures ImageFrom(s, p, d) <= Digits
    decreases 10 - d
  {
    if d < 10 {
      ImageFromDigits(s, p, d + 1);
    }
  }

  /** The new name of a digit below d is not among the new names of the digits from d on. */
  lemma {:induction false} ImageFromFresh(s: set<int>, p: seq<int>, d: int, e: int)
    requires IsDigitPermutation(p) && 1 <= e < d <= 10
    ensures p[e - 1] !in ImageFrom(s, p, d)
    decreases 10 - d
  {
    if d < 10 {
      ImageFromFresh(s, p, d + 1, e);
    }
  }

  /** Renaming is one-to-one, so it keeps the number of candidates. */
  lemma {:induction false} ImageFromSize(s: set<int>, p: seq<int>, d: int)
    requires IsDigitPermutation(p) && 1 <= d <= 10
    ensures |ImageFrom(s, p, d)| == |DigitsFrom(s, d)|
    decreases 10 - d
  {
    if d == 10 {
      assert DigitsFrom(s, d) == {};
    } else {
      ImageFromSize(s, p, d + 1);
      ImageFromFresh(s, p, d + 1, d);
      if d in s {
        assert DigitsFrom(s, d) == DigitsFrom(s, d + 1) + {d};
      } else {
        assert DigitsFrom(s, d) == DigitsFrom(s, d + 1);
      }
    }
  }

  /** Relabelling a valid candidate set gives a valid candidate set of the same size. */
  lemma ImageSize(s: set<int>, p: seq<int>)
    requires IsDigitPermutation(p) && ValidCands(s)
    ensures ValidCands(Image(s, p)) && |Image(s, p)| == |s|
  {
    assert |Image(s, p)| == |s| by {
      ImageIsImageFrom(s, p);
      ImageFromSize(s, p, 1);
      DigitsFromOne(s);
    }
    assert Image(s, p) <= Digits by {
      ImageIsImageFrom(s, p);
      ImageFromDigits(s, p, 1);
    }
  }

  /** Two digits with the same new name are the same digit. */
  lemma {:induction false} SingletonImage(p: seq<int>, v: int)
    requires IsDigitPermutation(p) && IsDigit(v)
    ensures Image({v}, p) == {p[v - 1]}
  {
    ImageSize({v}, p);
    assert p[v - 1] in Image({v}, p);
    assert |{v}| == 1;
  }

  /** changeNumbers: every cell relabelled by p. */
  function Relabel(s: seq<set<int>>, p: seq<int>): (r: seq<set<int>>)
    requires WellFormed(s) && IsDigitPermutation(p)
    ensures WellFormed(r)
    ensures forall k :: 0 <= k < 81 ==> r[k] == Image(s[k], p) && |r[k]| == |s[k]|
  {
    forall k | 0 <= k < 81 ensures ValidCands(Image(s[k], p)) && |Image(s[k], p)| == |s[k]| {
      ImageSize(s[k], p);
    }
    seq(81, k requires 0 <= k < 81 => Image(s[k], p))
  }

  /** Relabelling keeps which cells are solved and whether two peers clash. */
  lemma {:induction false} RelabelKeepsDuplicates(s: seq<set<int>>, p: seq<int>)
    requires WellFormed(s) && IsDigitPermutation(p)
    ensures forall k :: 0 <= k < 81 ==> (SolvedAt(Relabel(s, p), k) <==> SolvedAt(s, k))
    ensures HasDup(Relabel(s, p)) <==> HasDup(s)
  {
    var r := Relabel(s, p);
    forall j, k | 0 <= j < 81 && 0 <= k < 81 ensures DupPair(r, j, k) <==> DupPair(s, j, k) {
      if SolvedAt(s, j) && SolvedAt(s, k) {
        var a, b := ValAt(s, j), ValAt(s, k);
        SingletonImage(p, a);
        SingletonImage(p, b);
        if a != b {
          assert p[a - 1] != p[b - 1];
        }
      }
    }
    if HasDup(r) {
      var j, k :| 0 <= j < 81 && 0 <= k < 81 && DupPair(r, j, k);
      assert DupPair(s, j, k);
    }
    if HasDup(s) {
      var j, k :| 0 <= j < 81 && 0 <= k < 81 && DupPair(s, j, k);
      assert DupPair(r, j, k);
    }
  }

  /*** The Java methods ***/

  /** copyCell: `to` takes a copy of the candidates of `from`. */
  method CopyCell(from: Cell, to: Cell)
    requires from.Valid()
    modifies to
    ensures to.Valid() && to.cands == from.cands
  {
    to.SetCandidates(from.cands);
  }

  /**
   * Writes into every cell of `into` the SourceOf cell of `g`, visiting the
   * result row by row; `g` is only read.
   */
  method CopyAll(g: Grid, into: Grid, t: Transform)
    requires Admissible(t) && g.Valid() && into.Valid() && g.Repr !! into.Repr
    modifies into.Repr
    ensures into.Valid() && into.Cands() == Apply(t, g.Cands())
  {
    ghost var s := g.Cands();
    ghost var target := Apply(t, s);
    for row := 0 to 9
      invariant into.Valid() && g.Valid() && g.Cands() == s
      invariant forall k :: 0 <= k < row * 9 ==> into.Cands()[k] == target[k]
    {
      for column := 0 to 9
        invariant into.Valid() && g.Valid() && g.Cands() == s
        invariant forall k :: 0 <= k < row * 9 + column ==> into.Cands()[k] == target[k]
      {
        CopyInto(g, into, t, row, column);
      }
    }
  }

  /** The body of the copy loops: cell (row, column) of `into` takes its SourceOf cell of `g`. */
  method CopyInto(g: Grid, into: Grid, t: Transform, row: int, column: int)
    requires Admissible(t) && g.Valid() && into.Valid() && g.Repr !! into.Repr
    requires IsIndex(row) && IsIndex(column)
    modifies into.Repr
    ensures into.Valid() && g.Valid() && g.Cands() == old(g.Cands())
    ensures into.Cands() == old(into.Cands())[Coord(row, column) := Apply(t, g.Cands())[Coord(row, column)]]
  {
    var rc := SourceOf(t, row, column);
    SourceAt(t, row, column);
    CoordBijection(row, column);
    CopyCell(g.GetCell(rc.0, rc.1), into.GetCell(row, column));
  }

  /** rotateClockwise: result(r, c) is input(8 - c, r). */
  method RotateClockwiseGrid(g: Grid) returns (r: Grid)
    requires g.Valid()
    ensures fresh(r) && fresh(r.Repr) && r.Valid()
    ensures r.Cands() == Apply(RotateClockwise, g.Cands())
  {
    r := new Grid();
    CopyAll(g, r, RotateClockwise);
  }

  /** rotateCounterClockwise: three clockwise turns, so it undoes rotateClockwise. */
  method RotateCounterClockwiseGrid(g: Grid) returns (r: Grid)
    requires g.Valid()
    ensures fresh(r) && fresh(r.Repr) && r.Valid()
    ensures r.Cands() == RotateCounterClockwiseBoard(g.Cands())
  {
    var once := RotateClockwiseGrid(g);
    var twice := RotateClockwiseGrid(once);
    r := RotateClockwiseGrid(twice);
    ThreeQuarterTurns(g.Cands());
  }

  /** flipHorizontal: result(8 - r, c) is input(r, c). */
  method FlipHorizontalGrid(g: Grid) returns (r: Grid)
    requires g.Valid()
    ensures fresh(r) && fresh(r.Repr) && r.Valid()
    ensures r.Cands() == Apply(FlipHorizontal, g.Cands())
  {
    r := new Grid();
    CopyAll(g, r, FlipHorizontal);
  }

  /** flipVertical: result(r, 8 - c) is input(r, c). */
  method FlipVerticalGrid(g: Grid) returns (r: Grid)
    requires g.Valid()
    ensures fresh(r) && fresh(r.Repr) && r.Valid()
    ensures r.Cands() == Apply(FlipVertical, g.Cands())
  {
    r := new Grid();
    CopyAll(g, r, FlipVertical);
  }

  /** swapBoxColumns: stacks one and two exchange places. */
  method SwapBoxColumnsGrid(g: Grid, columnOne: int, columnTwo: int) returns (r: Grid)
    requires g.Valid() && IsBoxIndex(columnOne) && IsBoxIndex(columnTwo)
    ensures fresh(r) && fresh(r.Repr) && r.Valid()
    ensures r.Cands() == Apply(SwapBoxColumns(columnOne, columnTwo), g.Cands())
  {
    r := g.Clone();
    CopyAll(g, r, SwapBoxColumns(columnOne, columnTwo));
  }

  /** swapBoxRows: bands one and two exchange places. */
  method SwapBoxRowsGrid(g: Grid, rowOne: int, rowTwo: int) returns (r: Grid)
    requires g.Valid() && IsBoxIndex(rowOne) && IsBoxIndex(rowTwo)
    ensures fresh(r) && fresh(r.Repr) && r.Valid()
    ensures r.Cands() == Apply(SwapBoxRows(rowOne, rowTwo), g.Cands())
  {
    r := g.Clone();
    CopyAll(g, r, SwapBoxRows(rowOne, rowTwo));
  }

  /** swapRowsInBoxRow: rows boxRow*3 + rowAddOne and boxRow*3 + rowAddTwo exchange places. */
  method SwapRowsInBoxRowGrid(g: Grid, boxRow: int, rowAddOne: int, rowAddTwo: int) returns (r: Grid)
    requires g.Valid() && IsBoxIndex(boxRow) && IsBoxIndex(rowAddOne) && IsBoxIndex(rowAddTwo)
    ensures fresh(r) && fresh(r.Repr) && r.Valid()
    ensures r.Cands() == Apply(SwapRowsInBoxRow(boxRow, rowAddOne, rowAddTwo), g.Cands())
  {
    r := g.Clone();
    CopyAll(g, r, SwapRowsInBoxRow(boxRow, rowAddOne, rowAddTwo));
  }

  /** swapColumnInBoxColumn: two columns of one stack exchange places. */
  method SwapColumnInBoxColumnGrid(g: Grid, boxColumn: int, columnAddOne: int, columnAddTwo: int)
    returns (r: Grid)
    requires g.Valid() && IsBoxIndex(boxColumn) && IsBoxIndex(columnAddOne) && IsBoxIndex(columnAddTwo)
    ensures fresh(r) && fresh(r.Repr) && r.Valid()
    ensures r.Cands() == Apply(SwapColumnsInBoxColumn(boxColumn, columnAddOne, columnAddTwo), g.Cands())
  {
    r := g.Clone();
    CopyAll(g, r, SwapColumnsInBoxColumn(boxColumn, columnAddOne, columnAddTwo));
  }

  /** reflectOrigin: result(8 - r, 8 - c) is input(r, c). */
  method ReflectOriginGrid(g: Grid) returns (r: Grid)
    requires g.Valid()
    ensures fresh(r) && fresh(r.Repr) && r.Valid()
    ensures r.Cands() == Apply(ReflectOrigin, g.Cands())
  {
    r := g.Clone();
    CopyAll(g, r, ReflectOrigin);
  }

  /** reflectBottomTopDiagonal: result(8 - c, 8 - r) is input(r, c). */
  method ReflectBottomTopDiagonalGrid(g: Grid) returns (r: Grid)
    requires g.Valid()
    ensures fresh(r) && fresh(r.Repr) && r.Valid()
    ensures r.Cands() == Apply(ReflectBottomTop, g.Cands())
  {
    r := g.Clone();
    CopyAll(g, r, ReflectBottomTop);
  }

  /** reflectTopBottomDiagonal, the transpose: result(c, r) is input(r, c). */
  method ReflectTopBottomDiagonalGrid(g: Grid) returns (r: Grid)
    requires g.Valid()
    ensures fresh(r) && fresh(r.Repr) && r.Valid()
    ensures r.Cands() == Apply(ReflectTopBottom, g.Cands())
  {
    r := g.Clone();
    CopyAll(g, r, ReflectTopBottom);
  }

  /** The inner loop of changeNumbers: the candidates renamed by p, one digit at a time. */
  method RelabelCands(cands: set<int>, p: seq<int>) returns (newCands: set<int>)
    requires |p| == 9
    ensures newCands == Image(cands, p)
  {
    newCands := {};
    var d := 9;
    while d >= 1
      invariant 0 <= d <= 9
      invariant newCands == ImageFrom(cands, p, d + 1)
    {
      if d in cands {
        newCands := newCands + {p[d - 1]};
      }
      d := d - 1;
    }
    ImageIsImageFrom(cands, p);
  }

  /** One cell of changeNumbers: `to` takes the candidates of `from` renamed by p. */
  method RelabelCell(from: Cell, to: Cell, p: seq<int>)
    requires from.Valid() && IsDigitPermutation(p)
    modifies to
    ensures to.Valid() && to.cands == Image(old(from.cands), p)
    ensures |to.cands| == |old(from.cands)|
  {
    var newCands := RelabelCands(from.cands, p);
    ImageSize(from.cands, p);
    to.SetCandidates(newCands);
  }

  /** The loops of changeNumbers: every cell of `into` takes its cell of `g` renamed by p. */
  method RelabelAll(g: Grid, into: Grid, p: seq<int>)
    requires g.Valid() && into.Valid() && g.Repr !! into.Repr && IsDigitPermutation(p)
    modifies into.Repr
    ensures into.Valid() && into.Cands() == Relabel(g.Cands(), p)
  {
    ghost var s := g.Cands();
    ghost var target := Relabel(s, p);
    for row := 0 to 9
      invariant into.Valid() && g.Valid() && g.Cands() == s
      invariant forall k :: 0 <= k < row * 9 ==> into.Cands()[k] == target[k]
    {
      for column := 0 to 9
        invariant into.Valid() && g.Valid() && g.Cands() == s
        invariant forall k :: 0 <= k < row * 9 + column ==> into.Cands()[k] == target[k]
      {
        RelabelInto(g, into, p, row, column);
      }
    }
  }

  /** The body of the relabelling loops: cell (row, column) of `into` takes that of `g` renamed by p. */
  method RelabelInto(g: Grid, into: Grid, p: seq<int>, row: int, column: int)
    requires g.Valid() && into.Valid() && g.Repr !! into.Repr && IsDigitPermutation(p)
    requires IsIndex(row) && IsIndex(column)
    modifies into.Repr
    ensures into.Valid() && g.Valid() && g.Cands() == old(g.Cands())
    ensures into.Cands() == old(into.Cands())[Coord(row, column) := Relabel(g.Cands(), p)[Coord(row, column)]]
  {
    CoordBijection(row, column);
    RelabelCell(g.GetCell(row, column), into.GetCell(row, column), p);
  }

  /**
   * changeNumbers with the shuffle passed in: every cell's candidates are
   * renamed by p, so sizes and solved cells are kept.
   */
  method ChangeNumbers(g: Grid, p: seq<int>) returns (r: Grid)
    requires g.Valid() && IsDigitPermutation(p)
    ensures fresh(r) && fresh(r.Repr) && r.Valid()
    ensures r.Cands() == Relabel(g.Cands(), p)
  {
    r := g.Clone();
    RelabelAll(g, r, p);
  }
}
