/**
 * Why the solver may run a rule on a rotated copy of its grid
 * (Solver.xWing turns the grid a quarter clockwise to look for X-wings on
 * columns): a quarter turn keeps the "sees" relation, so it maps solutions
 * to solutions, and whatever a sound run on the turned board keeps, the
 * counter-clockwise turn brings back as a sound run on the board itself.
 */
module Symmetry {
  import opened Geometry
  import opened Grids
  import opened Solutions
  import opened Propagation
  import opened Permuters

  /** Two cells that see each other are turned into two cells that see each other. */
  lemma {:induction false} QuarterTurnSees(j: int, k: int)
    requires IsCoord(j) && IsCoord(k) && Sees(j, k)
    ensures Sees(Source(RotateClockwise, j), Source(RotateClockwise, k))
  {
    CoordInverse(j);
    CoordInverse(k);
    var rj, cj, rk, ck := RowOf(j), ColumnOf(j), RowOf(k), ColumnOf(k);
    CoordBijection(8 - cj, rj);
    CoordBijection(8 - ck, rk);
    assert (8 - cj) / 3 == 2 - cj / 3 && (8 - ck) / 3 == 2 - ck / 3;
  }

  /** The cell of a board that the counter-clockwise turn brings to j, and the quarter turn takes back. */
  lemma {:induction false} TurnBackAt(b: seq<set<int>>, j: int) returns (k: int)
    requires WellFormed(b) && IsCoord(j)
    ensures IsCoord(k) && Source(RotateClockwise, k) == j
    ensures RotateCounterClockwiseBoard(b)[j] == b[k]
  {
    k := TurnBack(j);
    TurnBackRoundTrip(j);
  }

  /** A solution laid out as Apply(RotateClockwise, ·) lays out a board. */
  ghost function TurnSolution(sol: seq<int>): seq<int>
    requires |sol| == 81
  {
    seq(81, k requires 0 <= k < 81 => sol[Source(RotateClockwise, k)])
  }

  /** A turned solution is a solution, and it is admitted by the turned board. */
  lemma {:induction false} TurnedSolution(sol: seq<int>, s: seq<set<int>>)
    requires IsSolution(sol) && WellFormed(s) && Consistent(sol, s)
    ensures IsSolution(TurnSolution(sol)) && Consistent(TurnSolution(sol), Apply(RotateClockwise, s))
  {
    var t := TurnSolution(sol);
    forall j, k | 0 <= j < 81 && 0 <= k < 81 && Sees(j, k) ensures t[j] != t[k] {
      QuarterTurnSees(j, k);
    }
  }

  /**
   * A run on the turned board that keeps every solution of the turned board,
   * turned back, keeps every solution of the board; and a run that failed
   * on the turned board shows that the board has no solution either.
   */
  lemma {:induction false} TurnedSound(a: seq<set<int>>, b: seq<set<int>>, failed: bool)
    requires WellFormed(a) && WellFormed(b) && Sound(Apply(RotateClockwise, a), b, {}, failed)
    ensures Sound(a, RotateCounterClockwiseBoard(b), {}, failed)
  {
    forall sol | IsSolution(sol) && Consistent(sol, a) && Excludes(sol, {})
      ensures Consistent(sol, RotateCounterClockwiseBoard(b)) && !failed
    {
      TurnedKeeps(a, b, failed, sol);
    }
  }

  /** TurnedSound for one solution. */
  lemma {:induction false} TurnedKeeps(a: seq<set<int>>, b: seq<set<int>>, failed: bool, sol: seq<int>)
    requires WellFormed(a) && WellFormed(b) && Sound(Apply(RotateClockwise, a), b, {}, failed)
    requires IsSolution(sol) && Consistent(sol, a)
    ensures Consistent(sol, RotateCounterClockwiseBoard(b)) && !failed
  {
    TurnedSolution(sol, a);
    var t := TurnSolution(sol);
    assert Excludes(t, {});
    assert Consistent(t, b) && !failed;
    var back := RotateCounterClockwiseBoard(b);
    forall j | 0 <= j < 81 ensures sol[j] in back[j] {
      var k := TurnBackAt(b, j);
      assert t[k] in b[k];
    }
  }

  /** The turned-back result of a run that only shrank the turned board is inside the board. */
  lemma {:induction false} TurnedShrinks(a: seq<set<int>>, b: seq<set<int>>)
    requires WellFormed(a) && WellFormed(b) && Shrinks(Apply(RotateClockwise, a), b)
    ensures Shrinks(a, RotateCounterClockwiseBoard(b))
  {
    var back := RotateCounterClockwiseBoard(b);
    forall j | 0 <= j < 81 ensures back[j] <= a[j] {
      var k := TurnBackAt(b, j);
    }
  }

  /** The turned-back result equals the board exactly when the run left the turned board as it was. */
  lemma {:induction false} TurnedUnchanged(a: seq<set<int>>, b: seq<set<int>>)
    requires WellFormed(a) && WellFormed(b)
    ensures RotateCounterClockwiseBoard(b) == a <==> b == Apply(RotateClockwise, a)
  {
    RotationRoundTrip(a);
    RotationRoundTrip(b);
  }

  /** The quarter turn keeps the naked-single eliminations complete. */
  lemma {:induction false} TurnedPropagated(s: seq<set<int>>)
    requires WellFormed(s) && Propagated(s)
    ensures Propagated(Apply(RotateClockwise, s))
  {
    var t := Apply(RotateClockwise, s);
    forall k | 0 <= k < 81 && SolvedAt(t, k) ensures CleanAt(t, k) {
      var z := Source(RotateClockwise, k);
      assert CleanAt(s, z);
      forall p | 0 <= p < 81 && Sees(k, p) ensures t[p] == t[k] || t[k] !! t[p] {
        QuarterTurnSees(k, p);
      }
    }
  }

  /** The flag of a run on the turned board says whether the board turned back differs. */
  lemma {:induction false} TurnedFlag(s: seq<set<int>>, t: seq<set<int>>, changed: bool)
    requires WellFormed(s) && WellFormed(t)
    requires changed <==> t != Apply(RotateClockwise, s)
    ensures changed <==> RotateCounterClockwiseBoard(t) != s
  {
    TurnedUnchanged(s, t);
  }

  /**
   * A search run on the board turned a quarter clockwise, reported on the
   * board turned back. When it succeeds, having only shrunk the turned board
   * and been sound when that board's eliminations were complete, the board
   * turned back only lost candidates, the flag still says whether anything
   * changed, and the run is sound on the board itself; a failure shows that
   * the board itself has no solution.
   */
  lemma {:induction false} TurnedRun(s: seq<set<int>>, t: seq<set<int>>, ok: bool, changed: bool, failed: bool)
    requires WellFormed(s) && WellFormed(t)
    requires Shrinks(Apply(RotateClockwise, s), t)
    requires SoundWhenPropagated(Apply(RotateClockwise, s), t, failed)
    requires ok ==> !failed && (changed <==> t != Apply(RotateClockwise, s))
    ensures ok ==> Shrinks(s, RotateCounterClockwiseBoard(t)) &&
                   (changed <==> RotateCounterClockwiseBoard(t) != s) &&
                   SoundWhenPropagated(s, RotateCounterClockwiseBoard(t), false)
    ensures !ok ==> SoundWhenPropagated(s, s, failed)
  {
    TurnedShrinks(s, t);
    TurnedRunSound(s, t, failed);
    if ok {
      TurnedFlag(s, t, changed);
    }
  }

  /** TurnedRun on a board whose eliminations are complete. */
  lemma {:induction false} TurnedRunSound(s: seq<set<int>>, t: seq<set<int>>, failed: bool)
    requires WellFormed(s) && WellFormed(t)
    requires SoundWhenPropagated(Apply(RotateClockwise, s), t, failed)
    ensures Propagated(s) ==> Sound(s, RotateCounterClockwiseBoard(t), {}, failed)
    ensures Propagated(s) ==> Sound(s, s, {}, failed)
  {
    if Propagated(s) {
      TurnedPropagated(s);
      TurnedSound(s, t, failed);
      SoundFailedAtStart(true, s, RotateCounterClockwiseBoard(t), failed);
    }
  }
}
