/**
 * The XY-wing rule of the solver (Solver.xYWingOneCell) on board values: the
 * pincer filter, the wing pattern and why it loses no solution, and the list
 * of cells whose candidate it removes — both as the source computes it (with
 * cells compared by Cell.equals) and by coordinate, which is what the rule
 * needs.
 */
module XYWings {
  import opened Geometry
  import opened Cells
  import opened Grids
  import opened Solutions
  import opened Deductions

  /** No digit of s from d on comes before LeastFrom(s, d). */
  lemma {:induction false} LeastFromFirst(s: set<int>, d: int)
    requires 1 <= d <= 10
    ensures forall x :: d <= x < LeastFrom(s, d) ==> x !in s
    decreases 10 - d
  {
    if d < 10 && d !in s {
      LeastFromFirst(s, d + 1);
    }
  }

  /**
   * The two candidates of a pivot with two candidates, in the order its
   * iterator gives them: the smaller one, then the larger one.
   */
  lemma {:induction false} PivotPair(c: set<int>)
    requires ValidCands(c) && |c| == 2
    ensures IsDigit(LeastFrom(c, 1)) && LeastFrom(c, 1) < 9
    ensures var a := LeastFrom(c, 1); IsDigit(LeastFrom(c, a + 1)) && a < LeastFrom(c, a + 1)
    ensures c == {LeastFrom(c, 1), LeastFrom(c, LeastFrom(c, 1) + 1)}
  {
    var a := LeastFrom(c, 1);
    var e :| e in c;
    assert IsDigit(e);
    assert a != 0;
    LeastFromFirst(c, 1);
    assert c - {a} != {} by {
      assert |c - {a}| == 1;
    }
    var f :| f in c - {a};
    assert IsDigit(f) && f > a;
    var b := LeastFrom(c, a + 1);
    assert b != 0;
    StrictSubsetSize({a, b}, c);
  }

  /** A cell with two candidates that carries x and c, two different digits, holds just those. */
  lemma TwoCands(t: set<int>, x: int, c: int)
    requires |t| == 2 && x in t && c in t && x != c
    ensures t == {x, c}
  {
    StrictSubsetSize({x, c}, t);
  }

  /** The cells of cs that carry exactly one of a and b, in their order in cs. */
  function OneOf(s: seq<set<int>>, cs: seq<int>, a: int, b: int): (r: seq<int>)
    requires WellFormed(s) && AllCoords(cs)
    ensures AllCoords(r) && |r| <= |cs|
    ensures forall x :: x in r <==> x in cs && IsCoord(x) && (a in s[x] <==> b !in s[x])
  {
    if cs == [] then []
    else
      var n := |cs| - 1;
      assert cs == cs[..n] + [cs[n]];
      OneOf(s, cs[..n], a, b) + (if (a in s[cs[n]] <==> b !in s[cs[n]]) then [cs[n]] else [])
  }

  /**
   * An XY-wing on board s: the pivot's candidates lie within {x, y}, the
   * first pincer's within {x, c} and the second's within {y, c}, and both
   * pincers see the pivot.
   */
  ghost predicate Wing(s: seq<set<int>>, pivot: int, p1: int, p2: int, x: int, y: int, c: int)
    requires WellFormed(s)
  {
    IsCoord(pivot) && IsCoord(p1) && IsCoord(p2) && Sees(pivot, p1) && Sees(pivot, p2) &&
    s[pivot] <= {x, y} && s[p1] <= {x, c} && s[p2] <= {y, c}
  }

  /**
   * A cell that sees both pincers holds c in no solution the board admits:
   * whichever of x and y the pivot takes, one pincer is left with c.
   */
  lemma {:induction false} WingExcludes(s: seq<set<int>>, pivot: int, p1: int, p2: int,
                                        x: int, y: int, c: int, t: int, sol: seq<int>)
    requires WellFormed(s) && Wing(s, pivot, p1, p2, x, y, c)
    requires IsCoord(t) && Sees(t, p1) && Sees(t, p2)
    requires IsSolution(sol) && Consistent(sol, s)
    ensures sol[t] != c
  {
    assert sol[pivot] in s[pivot] && sol[p1] in s[p1] && sol[p2] in s[p2];
    assert sol[pivot] != sol[p1] && sol[pivot] != sol[p2];
    assert sol[t] != sol[p1] && sol[t] != sol[p2];
  }

  /** A wing stays a wing while candidates are removed. */
  lemma WingShrinks(s: seq<set<int>>, u: seq<set<int>>, pivot: int, p1: int, p2: int, x: int, y: int, c: int)
    requires WellFormed(s) && WellFormed(u) && Shrinks(s, u) && Wing(s, pivot, p1, p2, x, y, c)
    ensures Wing(u, pivot, p1, p2, x, y, c)
  {
  }

  /** Removing c from a cell that sees both pincers loses no solution. */
  lemma {:induction false} WingRemovalSound(s0: seq<set<int>>, s1: seq<set<int>>, pivot: int, p1: int, p2: int,
                                            x: int, y: int, c: int, t: int, failed: bool)
    requires WellFormed(s0) && Wing(s0, pivot, p1, p2, x, y, c)
    requires IsCoord(t) && Sees(t, p1) && Sees(t, p2)
    requires Sound(s0, s1, {(t, c)}, failed)
    ensures Sound(s0, s1, {}, failed)
  {
    forall sol | IsSolution(sol) && Consistent(sol, s0) ensures Excludes(sol, {(t, c)}) {
      WingExcludes(s0, pivot, p1, p2, x, y, c, t, sol);
    }
    SoundDropAll(s0, s1, {(t, c)}, failed);
  }

  /*** The cells seen by both pincers. ***/

  /** The cells of two that are also cells of one, in their order in two. */
  function Intersection(one: seq<int>, two: seq<int>): (r: seq<int>)
    ensures forall x :: x in r <==> x in two && x in one
  {
    if two == [] then []
    else
      var n := |two| - 1;
      assert two == two[..n] + [two[n]];
      Intersection(one, two[..n]) + (if two[n] in one then [two[n]] else [])
  }

  /** The cells of xs that are not cells of drop, in their order in xs. */
  function Without(xs: seq<int>, drop: seq<int>): (r: seq<int>)
    ensures forall x :: x in r <==> x in xs && x !in drop
  {
    if xs == [] then []
    else
      var n := |xs| - 1;
      assert xs == xs[..n] + [xs[n]];
      Without(xs[..n], drop) + (if xs[n] in drop then [] else [xs[n]])
  }

  /** Every cell the rule removes c from sees both pincers. */
  lemma {:induction false} SharedPeersSee(p1: int, p2: int, pincers: seq<int>, t: int)
    requires IsCoord(p1) && IsCoord(p2)
    requires t in Without(Intersection(SeenCoords(RowOf(p1), ColumnOf(p1)), SeenCoords(RowOf(p2), ColumnOf(p2))), pincers)
    ensures IsCoord(t) && Sees(t, p1) && Sees(t, p2)
  {
    CoordInverse(p1);
    CoordInverse(p2);
    assert Sees(p1, t) && Sees(p2, t);
  }

  /*** The same list as Solver.java computes it: cells compared by Cell.equals. ***/

  /** The cells of two whose candidates equal those of some cell of one (List.contains on cells). */
  function EqualIntersection(s: seq<set<int>>, one: seq<int>, two: seq<int>): (r: seq<int>)
    requires WellFormed(s) && AllCoords(one) && AllCoords(two)
    ensures AllCoords(r)
    ensures forall x :: x in r ==> x in two && IsCoord(x) && exists y :: y in one && IsCoord(y) && s[y] == s[x]
    ensures forall x, y :: x in two && IsCoord(x) && y in one && IsCoord(y) && s[y] == s[x] ==> x in r
  {
    if two == [] then []
    else
      var n := |two| - 1;
      assert two == two[..n] + [two[n]];
      var x := two[n];
      EqualIntersection(s, one, two[..n]) +
        (if exists j :: 0 <= j < |one| && s[one[j]] == s[x] then [x] else [])
  }

  /** The cells of xs whose candidates equal those of no cell of drop (List.removeAll on cells). */
  function EqualWithout(s: seq<set<int>>, xs: seq<int>, drop: seq<int>): (r: seq<int>)
    requires WellFormed(s) && AllCoords(xs) && AllCoords(drop)
    ensures AllCoords(r)
    ensures forall x :: x in r ==> x in xs && IsCoord(x) && forall j :: 0 <= j < |drop| ==> s[drop[j]] != s[x]
    ensures forall x :: x in xs && IsCoord(x) && (forall j :: 0 <= j < |drop| ==> s[drop[j]] != s[x]) ==> x in r
  {
    if xs == [] then []
    else
      var n := |xs| - 1;
      assert xs == xs[..n] + [xs[n]];
      var x := xs[n];
      EqualWithout(s, xs[..n], drop) +
        (if exists j :: 0 <= j < |drop| && s[drop[j]] == s[x] then [] else [x])
  }

  /*** A board on which the list compared by Cell.equals removes a digit a solution needs. ***/

  /** How far row r of the pattern is shifted: 3 * (r % 3) + r / 3, a different amount for each row. */
  function Shift(r: int): int {
    3 * (r % 3) + r / 3
  }

  /** The digit of the pattern at coordinate k: row k / 9 holds 1..9 shifted by Shift(k / 9). */
  function PatternDigit(k: int): int {
    (Shift(k / 9) + k % 9) % 9 + 1
  }

  lemma PatternDigitIn(k: int)
    ensures PatternDigit(k) in Digits
  {
    var x := (Shift(k / 9) + k % 9) % 9;
    assert 0 <= x < 9;
    assert x + 1 in Digits;
  }

  /** A completed sudoku. */
  function Pattern(): (sol: seq<int>)
    ensures |sol| == 81
  {
    seq(81, PatternDigit)
  }

  /** Two sums below 18 that leave the same remainder by 9 and differ by less than 9 are equal. */
  lemma ModNine(x: int, y: int)
    requires 0 <= x < 18 && 0 <= y < 18 && -9 < x - y < 9 && x % 9 == y % 9
    ensures x == y
  {
    assert x == 9 * (x / 9) + x % 9 && y == 9 * (y / 9) + y % 9;
  }

  /** Row r is band r / 3, row r % 3 of it. */
  lemma Bands(r: int)
    requires IsIndex(r)
    ensures r == 3 * (r / 3) + r % 3 && 0 <= r / 3 < 3 && 0 <= r % 3 < 3
  {
  }

  /**
   * ShiftDiffers with every index split into band and offset: row 3b + a and
   * column 3f + e give 3a + b + 3f + e before the remainder by 9.
   */
  lemma ShiftDiffersSplit(a1: int, b1: int, e1: int, f1: int, a2: int, b2: int, e2: int, f2: int)
    requires 0 <= a1 < 3 && 0 <= b1 < 3 && 0 <= e1 < 3 && 0 <= f1 < 3
    requires 0 <= a2 < 3 && 0 <= b2 < 3 && 0 <= e2 < 3 && 0 <= f2 < 3
    requires (a1, b1, e1, f1) != (a2, b2, e2, f2)
    requires (a1 == a2 && b1 == b2) || (e1 == e2 && f1 == f2) || (b1 == b2 && f1 == f2)
    ensures (3 * a1 + b1 + 3 * f1 + e1) % 9 != (3 * a2 + b2 + 3 * f2 + e2) % 9
  {
    var x, y := 3 * a1 + b1 + 3 * f1 + e1, 3 * a2 + b2 + 3 * f2 + e2;
    if x % 9 == y % 9 {
      ModNine(x, y);
    }
  }

  /** Two different cells of a row, a column or a box get different shifted digits. */
  lemma ShiftDiffers(r1: int, c1: int, r2: int, c2: int)
    requires IsIndex(r1) && IsIndex(c1) && IsIndex(r2) && IsIndex(c2) && (r1 != r2 || c1 != c2)
    requires r1 == r2 || c1 == c2 || (r1 / 3 == r2 / 3 && c1 / 3 == c2 / 3)
    ensures (Shift(r1) + c1) % 9 != (Shift(r2) + c2) % 9
  {
    Bands(r1);
    Bands(r2);
    Bands(c1);
    Bands(c2);
    ShiftDiffersSplit(r1 % 3, r1 / 3, c1 % 3, c1 / 3, r2 % 3, r2 / 3, c2 % 3, c2 / 3);
  }

  lemma {:induction false} PatternDiffers(j: int, k: int)
    requires IsCoord(j) && IsCoord(k) && Sees(j, k)
    ensures Pattern()[j] != Pattern()[k]
  {
    var r1, c1, r2, c2 := RowOf(j), ColumnOf(j), RowOf(k), ColumnOf(k);
    assert j == 9 * r1 + c1 && k == 9 * r2 + c2 && IsIndex(c1) && IsIndex(c2) && IsIndex(r1) && IsIndex(r2);
    assert Pattern()[j] == PatternDigit(j) && Pattern()[k] == PatternDigit(k);
    ShiftDiffers(r1, c1, r2, c2);
  }

  /** The pattern is a solution. */
  lemma PatternSolution()
    ensures IsSolution(Pattern())
  {
    forall j, k | 0 <= j < 81 && 0 <= k < 81 && Sees(j, k) ensures Pattern()[j] != Pattern()[k] {
      PatternDiffers(j, k);
    }
  }

  /**
   * The board of the finding: every cell has all nine digits except the
   * pivot (0, 0) with {1, 4} and the pincers (0, 1) with {1, 2} and
   * (1, 0) with {2, 4}.
   */
  function WingBoard(): (s: seq<set<int>>)
    ensures WellFormed(s)
  {
    seq(81, WingCell)
  }

  function WingCell(k: int): set<int> {
    if k == 0 then {1, 4} else if k == 1 then {1, 2} else if k == 9 then {2, 4} else Digits
  }

  /** The digits the pattern puts at the wing's cells and at (1, 7). */
  lemma PatternAtWing()
    ensures Pattern()[0] == 1 && Pattern()[1] == 2 && Pattern()[9] == 4 && Pattern()[16] == 2
  {
    assert 0 % 3 == 0 && 0 / 3 == 0 && 1 % 3 == 1 && 1 / 3 == 0;
    assert Shift(0) == 0 && Shift(1) == 3;
    assert 0 / 9 == 0 && 0 % 9 == 0 && 1 / 9 == 0 && 1 % 9 == 1 && 2 % 9 == 2;
    assert PatternDigit(0) == 1 && PatternDigit(1) == 2;
    assert 9 / 9 == 1 && 9 % 9 == 0 && 3 % 9 == 3 && PatternDigit(9) == 4;
    assert 16 / 9 == 1 && 16 % 9 == 7 && 10 % 9 == 1 && PatternDigit(16) == 2;
  }

  /** WingBoard admits the pattern solution. */
  lemma WingBoardAdmitsPattern()
    ensures Consistent(Pattern(), WingBoard())
  {
    PatternAtWing();
    forall k | 0 <= k < 81 ensures Pattern()[k] in WingBoard()[k] {
      assert WingBoard()[k] == WingCell(k);
      if k == 0 {
        assert Pattern()[k] == 1 && 1 in WingCell(0);
      } else if k == 1 {
        assert Pattern()[k] == 2 && 2 in WingCell(1);
      } else if k == 9 {
        assert Pattern()[k] == 4 && 4 in WingCell(9);
      } else {
        PatternDigitIn(k);
        assert Pattern()[k] == PatternDigit(k) && WingCell(k) == Digits;
      }
    }
  }

  /** A cell of two whose candidates equal those of a cell of one, and of no cell of drop, is kept. */
  lemma EqualListKeeps(s: seq<set<int>>, one: seq<int>, two: seq<int>, drop: seq<int>, x: int, y: int)
    requires WellFormed(s) && AllCoords(one) && AllCoords(two) && AllCoords(drop)
    requires x in two && IsCoord(x) && y in one && IsCoord(y) && s[y] == s[x]
    requires forall j :: 0 <= j < |drop| ==> s[drop[j]] != s[x]
    ensures x in EqualWithout(s, EqualIntersection(s, one, two), drop)
  {
  }

  /** Neither pincer of WingBoard has the candidates of (1, 7). */
  lemma PincersUnlike()
    ensures forall j :: 0 <= j < |[1, 9]| ==> WingBoard()[[1, 9][j]] != WingBoard()[16]
  {
    var s := WingBoard();
    assert s[1] == WingCell(1) == {1, 2} && s[9] == WingCell(9) == {2, 4} && s[16] == WingCell(16) == Digits;
    assert 3 in s[16] && 3 !in s[1] && 3 !in s[9];
  }

  /** The wing of WingBoard: pivot (0, 0) on {1, 4}, pincers (0, 1) on {1, 2} and (1, 0) on {2, 4}. */
  lemma WingBoardWing()
    ensures Wing(WingBoard(), 0, 1, 9, 1, 4, 2) && !Sees(16, 1)
  {
    var s := WingBoard();
    assert 16 / 9 == 1 && 16 % 9 == 7 && 9 / 9 == 1 && 9 % 9 == 0 && 1 / 9 == 0 && 1 % 9 == 1;
    assert s[0] == WingCell(0) == {1, 4} && s[1] == WingCell(1) == {1, 2} && s[9] == WingCell(9) == {2, 4};
  }

  /**
   * On WingBoard, the list built with Cell.equals holds cell (1, 7), which
   * the first pincer does not see, and the pattern solution, which the board
   * admits, places the wing's digit 2 there: removing it loses that
   * solution. The list built by coordinate leaves (1, 7) out.
   */
  /**
   * The lists of the finding, where one and two list the cells seen by the
   * pincers (0, 1) and (1, 0): the list built with Cell.equals keeps (1, 7),
   * the list built by coordinate does not.
   */
  lemma WingBoardLists(one: seq<int>, two: seq<int>)
    requires forall p :: p in one <==> IsCoord(p) && Sees(1, p)
    requires forall p :: p in two <==> IsCoord(p) && Sees(9, p)
    ensures 16 in EqualWithout(WingBoard(), EqualIntersection(WingBoard(), one, two), [1, 9])
    ensures 16 !in Without(Intersection(one, two), [1, 9])
  {
    var s := WingBoard();
    PincersUnlike();
    assert 16 / 9 == 1 && 16 % 9 == 7 && 9 / 9 == 1 && 9 % 9 == 0 && 2 / 9 == 0 && 2 % 9 == 2 && 1 / 9 == 0 && 1 % 9 == 1;
    assert Sees(1, 2) && Sees(9, 16) && !Sees(1, 16);
    assert 2 in one && 16 in two && 16 !in one;
    assert s[2] == WingCell(2) == s[16];
    assert AllCoords(one) && AllCoords(two);
    EqualListKeeps(s, one, two, [1, 9], 16, 2);
  }

  /**
   * On WingBoard, the list built with Cell.equals holds cell (1, 7), which
   * the first pincer does not see, and the pattern solution, which the board
   * admits, places the wing's digit 2 there: removing it loses that
   * solution. The list built by coordinate leaves (1, 7) out. One and two
   * list the cells the pincers see, as SeenCoords(0, 1) and SeenCoords(1, 0)
   * do.
   */
  lemma WingBoardLosesSolution(one: seq<int>, two: seq<int>)
    requires forall p :: p in one <==> IsCoord(p) && Sees(1, p)
    requires forall p :: p in two <==> IsCoord(p) && Sees(9, p)
    ensures var s := WingBoard();
      Wing(s, 0, 1, 9, 1, 4, 2) &&
      16 in EqualWithout(s, EqualIntersection(s, one, two), [1, 9]) && !Sees(16, 1) &&
      16 !in Without(Intersection(one, two), [1, 9]) &&
      IsSolution(Pattern()) && Consistent(Pattern(), s) && Pattern()[16] == 2
  {
    PatternSolution();
    PatternAtWing();
    WingBoardAdmitsPattern();
    WingBoardWing();
    WingBoardLists(one, two);
  }
}
