/**
 * The logical solver (src/Main/Solver.java): a grid, the queue of coordinates
 * whose candidates changed, and the set `removedRookBox` of coordinates whose
 * solved value has already been eliminated from their row, column and box.
 *
 * Every rule mutates the grid in place, enqueues the cells it changed and
 * triggers the naked-single elimination of every cell it solves. Each method
 * states its effect through `Propagation.Progress` (the bookkeeping contract
 * shared by all rules) and `Solutions.Sound` (no solution of the board is
 * lost, and a failure happens only on a board without solutions). An
 * exception of the source (a removal that would empty a cell) is an `Err`
 * result that every caller propagates.
 */
module Solvers {
  import opened Wrappers
  import opened Geometry
  import opened Cells
  import opened Grids
  import opened QueueSets
  import opened StackSets
  import opened Solutions
  import opened Propagation
  import opened Deductions
  import opened Permuters
  import opened Symmetry
  import opened XYWings

  /** A work queue in good order: a queue set holding coordinates only. */
  ghost predicate QueueOk(q: QueueSet<int>)
    reads q
  {
    q.Valid() && forall i :: 0 <= i < |q.elementQueue| ==> IsCoord(q.elementQueue[i])
  }

  class Solver {
    const grid: Grid
    const changedCoords: QueueSet<int>
    var removedRookBox: set<int>

    /** The grid is valid and every recorded coordinate is a solved cell. */
    ghost predicate Valid()
      reads this, grid, grid.cells, grid.Repr
    {
      grid.Valid() && RecordedSolved(grid.Cands(), removedRookBox)
    }

    /** Solver(grid): every coordinate starts out queued and nothing is recorded. */
    constructor (g: Grid)
      requires g.Valid()
      ensures Valid() && grid == g && removedRookBox == {}
      ensures fresh(changedCoords) && QueueOk(changedCoords)
      ensures changedCoords.elementQueue == seq(81, i => i)
    {
      grid := g;
      removedRookBox := {};
      changedCoords := new QueueSet<int>();
      new;
      for i := 0 to 81
        invariant Valid() && grid == g && removedRookBox == {}
        invariant QueueOk(changedCoords)
        invariant changedCoords.elementQueue == seq(i, j => j)
      {
        var _ := changedCoords.Add(i);
        assert seq(i + 1, j => j) == seq(i, j => j) + [i];
      }
    }

    /**
     * Solver.solve: eliminates the value of every solved cell, then takes
     * coordinates off the queue until the board is solved or the queue is
     * empty, running every rule on each unsolved cell taken, and answers
     * whether the board is solved. A rule's exception ends the run; only an
     * emptied cell (NoCandidatesLeft) says that the board has no solution.
     */
    method Solve() returns (r: Result<bool>)
      requires Valid() && QueueOk(changedCoords)
      requires forall z :: z in removedRookBox ==> CleanAt(grid.Cands(), z)
      modifies this, grid.Repr, changedCoords
      ensures Valid() && QueueOk(changedCoords)
      ensures Shrinks(old(grid.Cands()), grid.Cands()) && Propagated(grid.Cands())
      ensures Sound(old(grid.Cands()), grid.Cands(), {}, r.Err? && r.error == NoCandidatesLeft)
      ensures r.Ok? ==> (r.value <==> BoardSolved(grid.Cands()))
      ensures r.Ok? && !r.value ==> changedCoords.elementQueue == []
      ensures r.Ok? && r.value ==> IsSolution(Values(grid.Cands())) && Consistent(Values(grid.Cands()), old(grid.Cands()))
      ensures r.Ok? && r.value ==>
        forall sol :: IsSolution(sol) && Consistent(sol, old(grid.Cands())) ==> sol == Values(grid.Cands())
    {
      ghost var s0, r0, q0 := grid.Cands(), removedRookBox, changedCoords.elementQueue;
      var _ := RunNakedSingle(changedCoords);
      assert Shrinks(s0, grid.Cands());
      var solved := grid.IsSolved();
      ghost var none: set<(int, int)> := {};
      assert none + none == none;
      while !solved && !changedCoords.IsEmpty()
        invariant Valid() && QueueOk(changedCoords)
        invariant Shrinks(s0, grid.Cands()) && Propagated(grid.Cands())
        invariant Sound(s0, grid.Cands(), {}, false)
        invariant solved <==> BoardSolved(grid.Cands())
        decreases TotalCands(grid.Cands()), |changedCoords.elementQueue|
      {
        ghost var s1 := grid.Cands();
        var o := SolveTurn();
        SoundTrans(s0, s1, grid.Cands(), {}, {}, o.Fail? && o.error == NoCandidatesLeft);
        if o.Fail? {
          return Err(o.error);
        }
        solved := grid.IsSolved();
      }
      if solved {
        SolvedRunUnique(s0, grid.Cands());
      } else {
        changedCoords.IsEmptyMeansNoElements();
      }
      return Ok(solved);
    }

    /**
     * One turn of solve's loop: the coordinate at the head of the queue is
     * taken off it and its cell is worked on. Each turn removes a candidate
     * or shortens the queue, which is why solve ends.
     */
    method SolveTurn() returns (o: Outcome)
      requires Valid() && QueueOk(changedCoords) && Propagated(grid.Cands()) && changedCoords.elementQueue != []
      modifies this, grid.Repr, changedCoords
      ensures Valid() && QueueOk(changedCoords) && Propagated(grid.Cands())
      ensures Shrinks(old(grid.Cands()), grid.Cands())
      ensures Sound(old(grid.Cands()), grid.Cands(), {}, o.Fail? && o.error == NoCandidatesLeft)
      ensures TotalCands(grid.Cands()) < TotalCands(old(grid.Cands())) ||
        (grid.Cands() == old(grid.Cands()) && |changedCoords.elementQueue| < |old(changedCoords.elementQueue)|)
    {
      ghost var s1, before := grid.Cands(), changedCoords.elementQueue;
      var next := changedCoords.Remove();
      var k := next.value;
      assert IsCoord(k) by {
        assert k == before[0];
      }
      o := SolveStep(k);
      ShrinkTotalCands(s1, grid.Cands());
    }

    /**
     * One turn of solve's loop, for the coordinate k just taken off the
     * queue: every rule when cell k is unsolved, nothing otherwise. A turn
     * that leaves the board as it was leaves the queue as it was.
     */
    method SolveStep(k: int) returns (o: Outcome)
      requires Valid() && QueueOk(changedCoords) && IsCoord(k) && Propagated(grid.Cands())
      modifies this, grid.Repr, changedCoords
      ensures Valid() && QueueOk(changedCoords) && Propagated(grid.Cands())
      ensures Shrinks(old(grid.Cands()), grid.Cands())
      ensures Sound(old(grid.Cands()), grid.Cands(), {}, o.Fail? && o.error == NoCandidatesLeft)
      ensures grid.Cands() == old(grid.Cands()) ==> changedCoords.elementQueue == old(changedCoords.elementQueue)
    {
      CoordInverse(k);
      if grid.IsSolvedAt(k / 9, k % 9) {
        SoundRefl(grid.Cands());
        return Pass;
      }
      ghost var s1, r1, q1 := grid.Cands(), removedRookBox, changedCoords.elementQueue;
      o := ApplyRules(k / 9, k % 9, changedCoords);
      PropagatedKept(s1, r1, q1, grid.Cands(), removedRookBox, changedCoords.elementQueue);
      QueueKept(s1, q1, grid.Cands(), changedCoords.elementQueue);
    }

    /**
     * The body of solve's loop for an unsolved cell: hiddenSingle, then
     * nakedCandidateN for n = 2 to 7, pointingCandidates, claimingCandidates,
     * xWing and xYWing, each on the board the previous one left. The first
     * exception ends the run.
     */
    method ApplyRules(row: int, column: int, q: QueueSet<int>) returns (o: Outcome)
      requires Valid() && QueueOk(q) && IsIndex(row) && IsIndex(column)
      modifies this, grid.Repr, q
      ensures Valid() && QueueOk(q)
      ensures Progress(old(grid.Cands()), old(removedRookBox), old(q.elementQueue),
                       grid.Cands(), removedRookBox, q.elementQueue)
      ensures SoundWhenPropagated(old(grid.Cands()), grid.Cands(), o.Fail? && o.error == NoCandidatesLeft)
    {
      ghost var s0, r0, q0 := grid.Cands(), removedRookBox, q.elementQueue;
      var _ := HiddenSingle(row, column, q);
      ghost var s1, r1, q1 := grid.Cands(), removedRookBox, q.elementQueue;
      o := NakedRules(row, column, q);
      SoundWhenPropagatedTrans(s0, r0, q0, s1, r1, q1, grid.Cands(), removedRookBox, q.elementQueue,
                               o.Fail? && o.error == NoCandidatesLeft);
      if o.Fail? {
        return;
      }
      ghost var s2, r2, q2 := grid.Cands(), removedRookBox, q.elementQueue;
      o := LaterRules(row, column, q);
      SoundWhenPropagatedTrans(s0, r0, q0, s2, r2, q2, grid.Cands(), removedRookBox, q.elementQueue,
                               o.Fail? && o.error == NoCandidatesLeft);
    }

    /** The loop of solve over nakedCandidateN for n = 2 to 7. */
    method NakedRules(row: int, column: int, q: QueueSet<int>) returns (o: Outcome)
      requires Valid() && QueueOk(q) && IsIndex(row) && IsIndex(column)
      modifies this, grid.Repr, q
      ensures Valid() && QueueOk(q)
      ensures Progress(old(grid.Cands()), old(removedRookBox), old(q.elementQueue),
                       grid.Cands(), removedRookBox, q.elementQueue)
      ensures SoundWhenPropagated(old(grid.Cands()), grid.Cands(), o.Fail? && o.error == NoCandidatesLeft)
    {
      ghost var s0, r0, q0 := grid.Cands(), removedRookBox, q.elementQueue;
      ProgressRefl(s0, r0, q0);
      SoundRefl(s0);
      for n := 2 to 8
        invariant Valid() && QueueOk(q)
        invariant Progress(s0, r0, q0, grid.Cands(), removedRookBox, q.elementQueue)
        invariant AllQueued(s0, grid.Cands(), q.elementQueue)
        invariant Sound(s0, grid.Cands(), {}, false)
      {
        ghost var s1, r1, q1 := grid.Cands(), removedRookBox, q.elementQueue;
        var step := NakedCandidateN(row, column, n, q);
        RemovalsTrans(s0, r0, q0, s1, r1, q1, grid.Cands(), removedRookBox, q.elementQueue, step.Err?);
        if step.Err? {
          SoundWeaker(s0, grid.Cands(), {}, true, step.error == NoCandidatesLeft);
          SoundWhenPropagatedFrom(s0, grid.Cands(), step.error == NoCandidatesLeft);
          return Fail(step.error);
        }
      }
      SoundWhenPropagatedFrom(s0, grid.Cands(), false);
      return Pass;
    }

    /** The rest of solve's loop body: pointingCandidates, claimingCandidates, xWing and xYWing. */
    method LaterRules(row: int, column: int, q: QueueSet<int>) returns (o: Outcome)
      requires Valid() && QueueOk(q) && IsIndex(row) && IsIndex(column)
      modifies this, grid.Repr, q
      ensures Valid() && QueueOk(q)
      ensures Progress(old(grid.Cands()), old(removedRookBox), old(q.elementQueue),
                       grid.Cands(), removedRookBox, q.elementQueue)
      ensures SoundWhenPropagated(old(grid.Cands()), grid.Cands(), o.Fail? && o.error == NoCandidatesLeft)
    {
      ghost var s0, r0, q0 := grid.Cands(), removedRookBox, q.elementQueue;
      var pointing := Pointing(row, column, q);
      if pointing.Err? {
        SoundWhenPropagatedWeaker(s0, grid.Cands(), true, pointing.error == NoCandidatesLeft);
        return Fail(pointing.error);
      }
      ghost var s1, r1, q1 := grid.Cands(), removedRookBox, q.elementQueue;
      var claiming := Claiming(row, column, q);
      SoundWhenPropagatedTrans(s0, r0, q0, s1, r1, q1, grid.Cands(), removedRookBox, q.elementQueue, claiming.Err?);
      if claiming.Err? {
        SoundWhenPropagatedWeaker(s0, grid.Cands(), true, claiming.error == NoCandidatesLeft);
        return Fail(claiming.error);
      }
      ghost var s2, r2, q2 := grid.Cands(), removedRookBox, q.elementQueue;
      var xWing := XWing(row, column, q);
      SoundWhenPropagatedTrans(s0, r0, q0, s2, r2, q2, grid.Cands(), removedRookBox, q.elementQueue,
                               xWing.Err? && xWing.error == NoCandidatesLeft);
      if xWing.Err? {
        return Fail(xWing.error);
      }
      ghost var s3, r3, q3 := grid.Cands(), removedRookBox, q.elementQueue;
      var xyWing := XYWing(row, column, q);
      SoundWhenPropagatedFrom(s3, grid.Cands(), xyWing.Err?);
      SoundWhenPropagatedTrans(s0, r0, q0, s3, r3, q3, grid.Cands(), removedRookBox, q.elementQueue, xyWing.Err?);
      if xyWing.Err? {
        SoundWhenPropagatedWeaker(s0, grid.Cands(), true, xyWing.error == NoCandidatesLeft);
        return Fail(xyWing.error);
      }
      return Pass;
    }

    /**
     * Solver.runNakedSingle: nakedSingle on every cell, row by row; afterwards
     * every solved cell's value is gone from the cells that see it.
     */
    method RunNakedSingle(q: QueueSet<int>) returns (changed: bool)
      requires Valid() && QueueOk(q)
      requires forall z :: z in removedRookBox ==> CleanAt(grid.Cands(), z)
      modifies this, grid.Repr, q
      ensures Valid() && QueueOk(q)
      ensures Progress(old(grid.Cands()), old(removedRookBox), old(q.elementQueue),
                       grid.Cands(), removedRookBox, q.elementQueue)
      ensures AllQueued(old(grid.Cands()), grid.Cands(), q.elementQueue)
      ensures Sound(old(grid.Cands()), grid.Cands(), {}, false)
      ensures Propagated(grid.Cands())
      ensures changed <==> grid.Cands() != old(grid.Cands())
    {
      ghost var s0, r0, q0 := grid.Cands(), removedRookBox, q.elementQueue;
      ProgressRefl(s0, r0, q0);
      SoundRefl(s0);
      changed := false;
      for k := 0 to 81
        invariant Valid() && QueueOk(q)
        invariant Progress(s0, r0, q0, grid.Cands(), removedRookBox, q.elementQueue)
        invariant AllQueued(s0, grid.Cands(), q.elementQueue)
        invariant Sound(s0, grid.Cands(), {}, false)
        invariant forall z :: z in removedRookBox ==> CleanAt(grid.Cands(), z)
        invariant forall j :: 0 <= j < k && SolvedAt(grid.Cands(), j) ==> j in removedRookBox
        invariant changed <==> grid.Cands() != s0
      {
        changed := RunNakedSingleStep(k, q, s0, r0, q0, changed);
      }
    }

    /** One turn of runNakedSingle's loop: nakedSingle on cell k. */
    method RunNakedSingleStep(k: int, q: QueueSet<int>, ghost s0: seq<set<int>>, ghost r0: set<int>, ghost q0: seq<int>,
                              changed0: bool) returns (changed: bool)
      requires Valid() && QueueOk(q) && IsCoord(k)
      requires Progress(s0, r0, q0, grid.Cands(), removedRookBox, q.elementQueue)
      requires AllQueued(s0, grid.Cands(), q.elementQueue) && Sound(s0, grid.Cands(), {}, false)
      requires forall z :: z in removedRookBox ==> CleanAt(grid.Cands(), z)
      requires forall j :: 0 <= j < k && SolvedAt(grid.Cands(), j) ==> j in removedRookBox
      requires changed0 <==> grid.Cands() != s0
      modifies this, grid.Repr, q
      ensures Valid() && QueueOk(q)
      ensures Progress(s0, r0, q0, grid.Cands(), removedRookBox, q.elementQueue)
      ensures AllQueued(s0, grid.Cands(), q.elementQueue) && Sound(s0, grid.Cands(), {}, false)
      ensures forall z :: z in removedRookBox ==> CleanAt(grid.Cands(), z)
      ensures forall j :: 0 <= j <= k && SolvedAt(grid.Cands(), j) ==> j in removedRookBox
      ensures changed <==> grid.Cands() != s0
    {
      CoordInverse(k);
      ghost var s1, r1, q1 := grid.Cands(), removedRookBox, q.elementQueue;
      var step := NakedSingle(k / 9, k % 9, q);
      RemovalsTrans(s0, r0, q0, s1, r1, q1, grid.Cands(), removedRookBox, q.elementQueue, false);
      AllCleanKept(s1, r1, q1, grid.Cands(), removedRookBox, q.elementQueue);
      changed := changed0 || step;
    }

    /**
     * Solver.nakedSingle: the first time it meets a solved cell, records it and
     * removes its value from every unsolved cell of its row, column and box.
     */
    method NakedSingle(row: int, column: int, q: QueueSet<int>) returns (changed: bool)
      requires Valid() && QueueOk(q) && IsIndex(row) && IsIndex(column)
      modifies this, grid.Repr, q
      ensures Valid() && QueueOk(q)
      ensures Progress(old(grid.Cands()), old(removedRookBox), old(q.elementQueue),
                       grid.Cands(), removedRookBox, q.elementQueue)
      ensures AllQueued(old(grid.Cands()), grid.Cands(), q.elementQueue)
      ensures Sound(old(grid.Cands()), grid.Cands(), {}, false)
      ensures changed <==> grid.Cands() != old(grid.Cands())
      ensures old(SolvedAt(grid.Cands(), Coord(row, column)) && Coord(row, column) !in removedRookBox) ==>
        Coord(row, column) in removedRookBox && CleanAt(grid.Cands(), Coord(row, column))
      ensures old(!SolvedAt(grid.Cands(), Coord(row, column)) || Coord(row, column) in removedRookBox) ==>
        grid.Cands() == old(grid.Cands()) && removedRookBox == old(removedRookBox) &&
        q.elementQueue == old(q.elementQueue)
      decreases TotalCands(grid.Cands()), Coords - removedRookBox, 3
    {
      var k := Coord(row, column);
      CoordBijection(row, column);
      if !(grid.IsSolvedAt(row, column) && k !in removedRookBox) {
        return false;
      }
      ghost var s0, r0, q0 := grid.Cands(), removedRookBox, q.elementQueue;
      removedRookBox := removedRookBox + {k};
      var v := grid.GetVal(row, column);
      PeerGroupsSee(k);
      changed := RemoveFromItr(PeerGroups(k), v, q, k);
      CleanFromPeerGroups(grid.Cands(), k, v);
      RecordedThenCleaned(s0, r0, q0, grid.Cands(), removedRookBox, q.elementQueue, k);
    }

    /**
     * Solver.removeFromItr: removes val from every unsolved cell of cs. The
     * ghost z is the solved cell whose value val is; every cell of cs is z or
     * sees it, which is what justifies the removals.
     */
    method RemoveFromItr(cs: seq<int>, val: int, q: QueueSet<int>, ghost z: int) returns (changed: bool)
      requires Valid() && QueueOk(q) && AllCoords(cs) && IsCoord(z)
      requires grid.Cands()[z] == {val}
      requires forall i :: 0 <= i < |cs| ==> cs[i] == z || Sees(cs[i], z)
      modifies this, grid.Repr, q
      ensures Valid() && QueueOk(q)
      ensures Progress(old(grid.Cands()), old(removedRookBox), old(q.elementQueue),
                       grid.Cands(), removedRookBox, q.elementQueue)
      ensures AllQueued(old(grid.Cands()), grid.Cands(), q.elementQueue)
      ensures Sound(old(grid.Cands()), grid.Cands(), {}, false)
      ensures Eliminated(grid.Cands(), cs, val)
      ensures changed <==> grid.Cands() != old(grid.Cands())
      decreases TotalCands(grid.Cands()), Coords - removedRookBox, 2
    {
      ghost var s0, r0, q0 := grid.Cands(), removedRookBox, q.elementQueue;
      ProgressRefl(s0, r0, q0);
      changed := false;
      for i := 0 to |cs|
        invariant Valid() && QueueOk(q)
        invariant Progress(s0, r0, q0, grid.Cands(), removedRookBox, q.elementQueue)
        invariant AllQueued(s0, grid.Cands(), q.elementQueue)
        invariant Sound(s0, grid.Cands(), {}, false)
        invariant grid.Cands()[z] == {val}
        invariant Eliminated(grid.Cands(), cs[..i], val)
        invariant changed <==> grid.Cands() != s0
      {
        ShrinkTotalCands(s0, grid.Cands());
        changed := RemoveFromCell(cs, i, val, q, z, s0, r0, q0, changed);
      }
      assert cs[..|cs|] == cs;
    }

    /** One step of removeFromItr: val leaves cell cs[i] unless that cell is solved. */
    method RemoveFromCell(cs: seq<int>, i: int, val: int, q: QueueSet<int>, ghost z: int,
                          ghost s0: seq<set<int>>, ghost r0: set<int>, ghost q0: seq<int>, changed0: bool)
      returns (changed: bool)
      requires Valid() && QueueOk(q) && AllCoords(cs) && IsCoord(z) && 0 <= i < |cs|
      requires cs[i] == z || Sees(cs[i], z)
      requires Progress(s0, r0, q0, grid.Cands(), removedRookBox, q.elementQueue)
      requires AllQueued(s0, grid.Cands(), q.elementQueue) && Sound(s0, grid.Cands(), {}, false)
      requires grid.Cands()[z] == {val} && Eliminated(grid.Cands(), cs[..i], val)
      requires changed0 <==> grid.Cands() != s0
      modifies this, grid.Repr, q
      ensures Valid() && QueueOk(q)
      ensures Progress(s0, r0, q0, grid.Cands(), removedRookBox, q.elementQueue)
      ensures AllQueued(s0, grid.Cands(), q.elementQueue) && Sound(s0, grid.Cands(), {}, false)
      ensures grid.Cands()[z] == {val} && Eliminated(grid.Cands(), cs[..i + 1], val)
      ensures changed <==> grid.Cands() != s0
      decreases TotalCands(grid.Cands()), Coords - removedRookBox, 1
    {
      var x := cs[i];
      CoordInverse(x);
      assert cs[..i + 1] == cs[..i] + [x];
      changed := changed0;
      ghost var s1, r1, q1 := grid.Cands(), removedRookBox, q.elementQueue;
      if !grid.IsSolvedAt(RowOf(x), ColumnOf(x)) {
        var r := RemoveAndCallNaked(x, val, q);
        changed := changed || r.value;
        RemoveFromItrStep(s0, r0, q0, s1, r1, q1, grid.Cands(), removedRookBox, q.elementQueue, cs[..i], x, val, z);
      }
    }

    /**
     * Solver.removeAndCallNaked: removes val from cell k; if it was there,
     * enqueues k and, if k is now solved, runs its naked-single elimination.
     * Removing the last candidate is the source's IllegalStateException.
     */
    method RemoveAndCallNaked(k: int, val: int, q: QueueSet<int>) returns (r: Result<bool>)
      requires Valid() && QueueOk(q) && IsCoord(k)
      modifies this, grid.Repr, q
      ensures Valid() && QueueOk(q)
      ensures Progress(old(grid.Cands()), old(removedRookBox), old(q.elementQueue),
                       grid.Cands(), removedRookBox, q.elementQueue)
      ensures AllQueued(old(grid.Cands()), grid.Cands(), q.elementQueue)
      ensures Sound(old(grid.Cands()), grid.Cands(), {(k, val)}, r.Err?)
      ensures r.Err? <==> old(grid.Cands())[k] == {val}
      ensures r.Err? ==> (r.error == NoCandidatesLeft && grid.Cands() == old(grid.Cands()) &&
                          removedRookBox == old(removedRookBox) && q.elementQueue == old(q.elementQueue))
      ensures r.Ok? ==> val !in grid.Cands()[k]
      ensures r.Ok? ==> (r.value <==> val in old(grid.Cands())[k]) &&
                        (r.value <==> grid.Cands() != old(grid.Cands()))
      decreases TotalCands(grid.Cands()), Coords - removedRookBox, 0
    {
      CoordInverse(k);
      ghost var s0, r0, q0 := grid.Cands(), removedRookBox, q.elementQueue;
      r := RemoveAndEnqueue(k, val, q);
      if r.Err? || !r.value {
        ProgressRefl(s0, r0, q0);
        if r.Err? {
          RemovalRefuted(s0, k, val);
        } else {
          SoundRefl(s0);
          SoundWiden(s0, s0, {}, {(k, val)}, false);
        }
        return;
      }
      ghost var s1, q1 := grid.Cands(), q.elementQueue;
      if grid.IsSolvedAt(RowOf(k), ColumnOf(k)) {
        var _ := NakedSingle(RowOf(k), ColumnOf(k), q);
      } else {
        ProgressRefl(s1, r0, q1);
        SoundRefl(s1);
      }
      RemovalThenCascadeEnd(s0, r0, q0, s1, q1, grid.Cands(), removedRookBox, q.elementQueue, k, val);
    }

    /** The first half of removeAndCallNaked: the removal, and the enqueue when it removed something. */
    method RemoveAndEnqueue(k: int, val: int, q: QueueSet<int>) returns (r: Result<bool>)
      requires Valid() && QueueOk(q) && IsCoord(k)
      modifies grid.Repr, q
      ensures Valid() && QueueOk(q)
      ensures r.Err? <==> old(grid.Cands())[k] == {val}
      ensures r.Err? ==> r.error == NoCandidatesLeft
      ensures r.Ok? ==> r.value == (val in old(grid.Cands())[k])
      ensures r.Err? || !r.value ==> grid.Cands() == old(grid.Cands()) && q.elementQueue == old(q.elementQueue)
      ensures r.Ok? && r.value ==> TotalCands(grid.Cands()) < TotalCands(old(grid.Cands()))
      ensures r.Ok? && r.value ==>
        grid.Cands() == old(grid.Cands())[k := old(grid.Cands())[k] - {val}] &&
        (q.elementQueue == old(q.elementQueue) + [k] || (q.elementQueue == old(q.elementQueue) && k in old(q.elementQueue)))
    {
      CoordInverse(k);
      ghost var s0 := grid.Cands();
      r := grid.RemoveCand(RowOf(k), ColumnOf(k), val);
      if r.Ok? && r.value {
        RemovalFacts(s0, grid.Cands(), k, val);
        RecordedSolvedKept(s0, grid.Cands(), removedRookBox);
        var _ := q.Add(k);
      } else if r.Ok? {
        assert s0[k] - {val} == s0[k];
      }
    }

    /**
     * Solver.solveAndCallNaked: solves cell k to val and runs the naked-single
     * elimination of k. A val that is not a candidate is the source's
     * IllegalStateException. The solved cell itself is not enqueued.
     */
    method SolveAndCallNaked(k: int, val: int, q: QueueSet<int>) returns (o: Outcome)
      requires Valid() && QueueOk(q) && IsCoord(k)
      modifies this, grid.Repr, q
      ensures Valid() && QueueOk(q)
      ensures Progress(old(grid.Cands()), old(removedRookBox), old(q.elementQueue),
                       grid.Cands(), removedRookBox, q.elementQueue)
      ensures Sound(old(grid.Cands()), grid.Cands(), SolveTargets(k, val), o.Fail?)
      ensures o.Pass? <==> val in old(grid.Cands())[k]
      ensures o.Fail? ==> (o.error == NotACandidate && grid.Cands() == old(grid.Cands()) &&
                           removedRookBox == old(removedRookBox) && q.elementQueue == old(q.elementQueue))
      ensures o.Pass? ==> grid.Cands()[k] == {val} && k in removedRookBox
    {
      CoordInverse(k);
      ghost var s0, r0, q0 := grid.Cands(), removedRookBox, q.elementQueue;
      o := grid.SolveCell(RowOf(k), ColumnOf(k), val);
      if o.Fail? {
        ProgressRefl(s0, r0, q0);
        SolveRefuted(s0, k, val);
        return;
      }
      ghost var s1 := grid.Cands();
      SolveFacts(s0, s1, r0, k, val);
      var _ := NakedSingle(RowOf(k), ColumnOf(k), q);
      SolveThenCascadeEnd(s0, r0, q0, s1, grid.Cands(), removedRookBox, q.elementQueue, k, val);
    }

    /**
     * Solver.removeAllAndCallNaked: removes each digit of vals, in order, from
     * cell k with removeAndCallNaked; true iff one of them was a candidate.
     * The first failing removal aborts with the changes made so far.
     */
    method RemoveAllAndCallNaked(k: int, vals: seq<int>, q: QueueSet<int>) returns (r: Result<bool>)
      requires Valid() && QueueOk(q) && IsCoord(k)
      modifies this, grid.Repr, q
      ensures Valid() && QueueOk(q)
      ensures Progress(old(grid.Cands()), old(removedRookBox), old(q.elementQueue),
                       grid.Cands(), removedRookBox, q.elementQueue)
      ensures AllQueued(old(grid.Cands()), grid.Cands(), q.elementQueue)
      ensures Sound(old(grid.Cands()), grid.Cands(), CellTargets(k, vals), r.Err?)
      ensures r.Err? ==> r.error == NoCandidatesLeft
      ensures r.Ok? ==> forall v :: v in vals ==> v !in grid.Cands()[k]
      ensures r.Ok? ==> (r.value <==> grid.Cands() != old(grid.Cands()))
    {
      ghost var s0, r0, q0 := grid.Cands(), removedRookBox, q.elementQueue;
      ProgressRefl(s0, r0, q0);
      SoundRefl(s0);
      var changed := false;
      for i := 0 to |vals|
        invariant Valid() && QueueOk(q)
        invariant Progress(s0, r0, q0, grid.Cands(), removedRookBox, q.elementQueue)
        invariant AllQueued(s0, grid.Cands(), q.elementQueue)
        invariant Sound(s0, grid.Cands(), CellTargets(k, vals[..i]), false)
        invariant forall v :: v in vals[..i] ==> v !in grid.Cands()[k]
        invariant changed <==> grid.Cands() != s0
      {
        ghost var s1, r1, q1 := grid.Cands(), removedRookBox, q.elementQueue;
        var removed := RemoveAndCallNaked(k, vals[i], q);
        RemoveAllStep(s0, r0, q0, s1, r1, q1, grid.Cands(), removedRookBox, q.elementQueue, k, vals[..i], vals[i], removed.Err?);
        assert vals[..i + 1] == vals[..i] + [vals[i]];
        if removed.Err? {
          SoundWiden(s0, grid.Cands(), CellTargets(k, vals[..i + 1]), CellTargets(k, vals), true);
          return Err(removed.error);
        }
        changed := changed || removed.value;
      }
      assert vals[..|vals|] == vals;
      return Ok(changed);
    }

    /**
     * Solver.hiddenSingle(row, column): the hidden-single rule on the row, the
     * column and the box of the cell, in that order.
     */
    method HiddenSingle(row: int, column: int, q: QueueSet<int>) returns (changed: bool)
      requires Valid() && QueueOk(q) && IsIndex(row) && IsIndex(column)
      modifies this, grid.Repr, q
      ensures Valid() && QueueOk(q)
      ensures Progress(old(grid.Cands()), old(removedRookBox), old(q.elementQueue),
                       grid.Cands(), removedRookBox, q.elementQueue)
      ensures SoundWhenPropagated(old(grid.Cands()), grid.Cands(), false)
      ensures (exists d :: IsDigit(d) && Frequency(old(grid.Cands()), RowCoords(row), d, true) == 1) ==> changed
    {
      ghost var s0, r0, q0 := grid.Cands(), removedRookBox, q.elementQueue;
      RowGroup(row);
      var inRow := HiddenSingleGroup(RowCoords(row), q);
      ghost var s1, r1, q1 := grid.Cands(), removedRookBox, q.elementQueue;
      ColumnGroup(column);
      var inColumn := HiddenSingleGroup(ColumnCoords(column), q);
      SoundWhenPropagatedTrans(s0, r0, q0, s1, r1, q1, grid.Cands(), removedRookBox, q.elementQueue, false);
      ghost var s2, r2, q2 := grid.Cands(), removedRookBox, q.elementQueue;
      BoxGroup(row, column);
      var inBox := HiddenSingleGroup(BoxCoords(row, column), q);
      SoundWhenPropagatedTrans(s0, r0, q0, s2, r2, q2, grid.Cands(), removedRookBox, q.elementQueue, false);
      changed := inRow || inColumn || inBox;
    }

    /**
     * Solver.hiddenSingle(itr, frequency) with the counts of the group's
     * unsolved cells taken on entry (Grid.getRowCands and its siblings): for
     * each digit counted once, in increasing order, solves the next cell of
     * the group that carries it. One iterator serves all digits, so the search
     * for a digit resumes after the cell placed for the previous one. The
     * result is true iff some digit was counted once.
     */
    method HiddenSingleGroup(cs: seq<int>, q: QueueSet<int>) returns (changed: bool)
      requires Valid() && QueueOk(q) && Group(cs)
      modifies this, grid.Repr, q
      ensures Valid() && QueueOk(q)
      ensures Progress(old(grid.Cands()), old(removedRookBox), old(q.elementQueue),
                       grid.Cands(), removedRookBox, q.elementQueue)
      ensures SoundWhenPropagated(old(grid.Cands()), grid.Cands(), false)
      ensures changed <==> exists d :: IsDigit(d) && Frequency(old(grid.Cands()), cs, d, true) == 1
    {
      var frequency := grid.GetCandsMapping(cs);
      ghost var s0, r0, q0 := grid.Cands(), removedRookBox, q.elementQueue;
      ProgressRefl(s0, r0, q0);
      SoundWhenPropagatedRefl(s0);
      changed := false;
      var next := 0;
      for d := 1 to 10
        invariant Valid() && QueueOk(q) && 0 <= next <= 9
        invariant Progress(s0, r0, q0, grid.Cands(), removedRookBox, q.elementQueue)
        invariant SoundWhenPropagated(s0, grid.Cands(), false)
        invariant changed <==> exists e :: 1 <= e < d && Frequency(s0, cs, e, true) == 1
        invariant !changed ==> grid.Cands() == s0 && next == 0
      {
        if frequency[d] == 1 {
          var placed;
          placed, next := HiddenSingleDigit(cs, d, next, q, s0, r0, q0);
          changed := changed || placed;
        }
      }
    }

    /**
     * One digit of hiddenSingle(itr, frequency): the digit d was counted once
     * in the board s0 the group started from; the next cell of the group, from
     * index `from` on, that carries d is solved to d. Returns whether there was
     * one and where the shared iterator stands afterwards.
     */
    method HiddenSingleDigit(cs: seq<int>, d: int, from: int, q: QueueSet<int>,
                             ghost s0: seq<set<int>>, ghost r0: set<int>, ghost q0: seq<int>)
      returns (placed: bool, next: int)
      requires Valid() && QueueOk(q) && Group(cs) && 0 <= from <= 9
      requires Progress(s0, r0, q0, grid.Cands(), removedRookBox, q.elementQueue)
      requires SoundWhenPropagated(s0, grid.Cands(), false)
      requires Frequency(s0, cs, d, true) == 1
      modifies this, grid.Repr, q
      ensures Valid() && QueueOk(q) && 0 <= next <= 9
      ensures Progress(s0, r0, q0, grid.Cands(), removedRookBox, q.elementQueue)
      ensures SoundWhenPropagated(s0, grid.Cands(), false)
      ensures placed ==> from <= next - 1 && grid.Cands()[cs[next - 1]] == {d}
      ensures !placed ==> grid.Cands() == old(grid.Cands()) && next == 9
      ensures old(grid.Cands()) == s0 && from == 0 ==> placed
    {
      var i := FirstHolding(cs, from, d);
      if i == 9 {
        if old(grid.Cands()) == s0 && from == 0 {
          FrequencyPositive(s0, cs, d, true);
        }
        return false, 9;
      }
      ghost var s1, r1, q1 := grid.Cands(), removedRookBox, q.elementQueue;
      var _ := SolveAndCallNaked(cs[i], d, q);
      HiddenSingleStep(s0, r0, q0, s1, r1, q1, grid.Cands(), removedRookBox, q.elementQueue, cs, d, i);
      return true, i + 1;
    }

    /** The search of hiddenSingle: the first cell of cs, from index `from` on, that carries d. */
    method FirstHolding(cs: seq<int>, from: int, d: int) returns (i: int)
      requires Valid() && AllCoords(cs) && 0 <= from <= |cs|
      ensures from <= i <= |cs|
      ensures forall j :: from <= j < i ==> d !in grid.Cands()[cs[j]]
      ensures i < |cs| ==> d in grid.Cands()[cs[i]]
    {
      i := from;
      while i < |cs|
        invariant from <= i <= |cs|
        invariant forall j :: from <= j < i ==> d !in grid.Cands()[cs[j]]
      {
        if d in grid.CandsAt(cs[i]) {
          return;
        }
        i := i + 1;
      }
    }
  
    /**
     * Solver.keepCandRange: the unsolved cells of cs whose number of
     * candidates lies in [min, max], in their order in cs.
     */
    method KeepCandRange(cs: seq<int>, min: int, max: int) returns (kept: seq<int>)
      requires Valid() && AllCoords(cs)
      ensures kept == KeepRange(grid.Cands(), cs, min, max)
    {
      kept := [];
      for i := 0 to |cs|
        invariant kept == KeepRange(grid.Cands(), cs[..i], min, max)
      {
        assert cs[..i + 1][..i] == cs[..i];
        var c := grid.CandsAt(cs[i]);
        if |c| != 1 && |c| <= max && |c| >= min {
          kept := kept + [cs[i]];
        }
      }
      assert cs[..|cs|] == cs;
    }

    /**
     * List.contains on a list of cells, which compares cells by Cell.equals:
     * whether some cell of cs has the same candidates as cell x.
     */
    function HasEqualCell(cs: seq<int>, x: int): (b: bool)
      reads this, grid, grid.cells, grid.Repr
      requires Valid() && AllCoords(cs) && IsCoord(x)
      ensures b <==> exists j :: 0 <= j < |cs| && grid.Cands()[cs[j]] == grid.Cands()[x]
      ensures x in cs ==> b
    {
      exists j | 0 <= j < |cs| :: grid.CandsAt(cs[j]) == grid.CandsAt(x)
    }

    /** Solver.nakedCandidates: naked pairs, triples, quads and quints through (row, column). */
    method NakedCandidates(row: int, column: int, q: QueueSet<int>) returns (r: Result<bool>)
      requires Valid() && QueueOk(q) && IsIndex(row) && IsIndex(column)
      modifies this, grid.Repr, q
      ensures Valid() && QueueOk(q)
      ensures Progress(old(grid.Cands()), old(removedRookBox), old(q.elementQueue),
                       grid.Cands(), removedRookBox, q.elementQueue)
      ensures AllQueued(old(grid.Cands()), grid.Cands(), q.elementQueue)
      ensures Sound(old(grid.Cands()), grid.Cands(), {}, r.Err?)
      ensures r.Ok? ==> (r.value <==> grid.Cands() != old(grid.Cands()))
    {
      ghost var s0, r0, q0 := grid.Cands(), removedRookBox, q.elementQueue;
      ProgressRefl(s0, r0, q0);
      SoundRefl(s0);
      var changed := false;
      for n := 2 to 6
        invariant Valid() && QueueOk(q)
        invariant Progress(s0, r0, q0, grid.Cands(), removedRookBox, q.elementQueue)
        invariant AllQueued(s0, grid.Cands(), q.elementQueue) && Sound(s0, grid.Cands(), {}, false)
        invariant changed <==> grid.Cands() != s0
      {
        ghost var s1, r1, q1 := grid.Cands(), removedRookBox, q.elementQueue;
        var step := NakedCandidateN(row, column, n, q);
        RemovalsTrans(s0, r0, q0, s1, r1, q1, grid.Cands(), removedRookBox, q.elementQueue, step.Err?);
        if step.Err? {
          return step;
        }
        changed := changed || step.value;
      }
      return Ok(changed);
    }

    /**
     * Solver.nakedCandidateN(row, column, n): the naked-set rule for sets of
     * n cells on the row, the column and the box through (row, column).
     */
    method NakedCandidateN(row: int, column: int, n: int, q: QueueSet<int>) returns (r: Result<bool>)
      requires Valid() && QueueOk(q) && IsIndex(row) && IsIndex(column)
      modifies this, grid.Repr, q
      ensures Valid() && QueueOk(q)
      ensures Progress(old(grid.Cands()), old(removedRookBox), old(q.elementQueue),
                       grid.Cands(), removedRookBox, q.elementQueue)
      ensures AllQueued(old(grid.Cands()), grid.Cands(), q.elementQueue)
      ensures Sound(old(grid.Cands()), grid.Cands(), {}, r.Err?)
      ensures r.Ok? ==> (r.value <==> grid.Cands() != old(grid.Cands()))
    {
      ghost var s0, r0, q0 := grid.Cands(), removedRookBox, q.elementQueue;
      RowGroup(row);
      var inRow := NakedSetGroup(RowCoords(row), n, q);
      if inRow.Err? {
        return inRow;
      }
      ghost var s1, r1, q1 := grid.Cands(), removedRookBox, q.elementQueue;
      ColumnGroup(column);
      var inColumn := NakedSetGroup(ColumnCoords(column), n, q);
      RemovalsTrans(s0, r0, q0, s1, r1, q1, grid.Cands(), removedRookBox, q.elementQueue, inColumn.Err?);
      if inColumn.Err? {
        return inColumn;
      }
      ghost var s2, r2, q2 := grid.Cands(), removedRookBox, q.elementQueue;
      BoxGroup(row, column);
      var inBox := NakedSetGroup(BoxCoords(row, column), n, q);
      RemovalsTrans(s0, r0, q0, s2, r2, q2, grid.Cands(), removedRookBox, q.elementQueue, inBox.Err?);
      if inBox.Err? {
        return inBox;
      }
      return Ok(inRow.value || inColumn.value || inBox.value);
    }

    /**
     * Solver.nakedCandidateN(cells, n): nothing to do unless at least n
     * unsolved cells of the group have 2 to n candidates and at least n + 1
     * of its cells are unsolved; otherwise the recursive search over the
     * cells with 2 to n candidates.
     */
    method NakedSetGroup(cs: seq<int>, n: int, q: QueueSet<int>) returns (r: Result<bool>)
      requires Valid() && QueueOk(q) && Group(cs)
      modifies this, grid.Repr, q
      ensures Valid() && QueueOk(q)
      ensures Progress(old(grid.Cands()), old(removedRookBox), old(q.elementQueue),
                       grid.Cands(), removedRookBox, q.elementQueue)
      ensures AllQueued(old(grid.Cands()), grid.Cands(), q.elementQueue)
      ensures Sound(old(grid.Cands()), grid.Cands(), {}, r.Err?)
      ensures r.Ok? ==> (r.value <==> grid.Cands() != old(grid.Cands()))
      ensures |KeepRange(old(grid.Cands()), cs, 2, n)| < n || |KeepRange(old(grid.Cands()), cs, 2, 9)| < n + 1 ==>
        r == Ok(false) && grid.Cands() == old(grid.Cands())
    {
      ghost var s0, r0, q0 := grid.Cands(), removedRookBox, q.elementQueue;
      NakedSetFilters(s0, cs, n);
      var unsolved := KeepCandRange(cs, 2, 9);
      var nCands := KeepCandRange(unsolved, 2, n);
      if |nCands| < n || |unsolved| < n + 1 {
        ProgressRefl(s0, r0, q0);
        SoundRefl(s0);
        return Ok(false);
      }
      r := NakedSetStart(cs, unsolved, nCands, n, q);
    }

    /** The start of the search of nakedCandidateN: a new StackSet and no chosen cell. */
    method NakedSetStart(cs: seq<int>, unsolved: seq<int>, nCands: seq<int>, n: int, q: QueueSet<int>)
      returns (r: Result<bool>)
      requires Valid() && QueueOk(q) && Group(cs)
      requires forall i :: 0 <= i < |unsolved| ==> unsolved[i] in cs
      requires AllCoords(nCands) && PairwiseSees(nCands) && forall i :: 0 <= i < |nCands| ==> nCands[i] in cs
      modifies this, grid.Repr, q
      ensures Valid() && QueueOk(q)
      ensures Progress(old(grid.Cands()), old(removedRookBox), old(q.elementQueue),
                       grid.Cands(), removedRookBox, q.elementQueue)
      ensures AllQueued(old(grid.Cands()), grid.Cands(), q.elementQueue)
      ensures Sound(old(grid.Cands()), grid.Cands(), {}, r.Err?)
      ensures r.Ok? ==> (r.value <==> grid.Cands() != old(grid.Cands()))
    {
      var st := new StackSet();
      r := NakedSetSearch(cs, unsolved, nCands, st, [], n, 0, q);
    }

    /**
     * Solver.nakedCandidateNRecursiveHelper: tries every extension of the
     * chosen cells (the source's cellsOnStack, whose candidates st holds layer
     * by layer) by a cell of nCands from index start on. Once n cells are
     * chosen and their candidates number exactly n, those candidates are
     * removed from the other unsolved cells of the group; with fewer chosen
     * cells, the search goes one level deeper. Every push is popped again
     * unless a removal fails.
     */
    method NakedSetSearch(cs: seq<int>, unsolved: seq<int>, nCands: seq<int>, st: StackSet,
                          chosen: seq<int>, n: int, start: int, q: QueueSet<int>) returns (r: Result<bool>)
      requires Valid() && QueueOk(q) && st.Valid() && Group(cs)
      requires forall i :: 0 <= i < |unsolved| ==> unsolved[i] in cs
      requires AllCoords(nCands) && PairwiseSees(nCands) && forall i :: 0 <= i < |nCands| ==> nCands[i] in cs
      requires 0 <= start <= |nCands| && |chosen| == |st.stack| && PairwiseSees(chosen)
      requires forall j :: 0 <= j < |chosen| ==> chosen[j] in nCands[..start]
      requires forall j :: 0 <= j < |chosen| ==> grid.Cands()[chosen[j]] <= Union(st.stack[..j + 1])
      modifies this, grid.Repr, q, st
      ensures Valid() && QueueOk(q) && st.Valid()
      ensures Progress(old(grid.Cands()), old(removedRookBox), old(q.elementQueue),
                       grid.Cands(), removedRookBox, q.elementQueue)
      ensures AllQueued(old(grid.Cands()), grid.Cands(), q.elementQueue)
      ensures Sound(old(grid.Cands()), grid.Cands(), {}, r.Err?)
      ensures r.Ok? ==> st.stack == old(st.stack) && st.members == old(st.members)
      ensures r.Ok? ==> (r.value <==> grid.Cands() != old(grid.Cands()))
      decreases |nCands| - start, 2
    {
      ghost var s0, r0, q0 := grid.Cands(), removedRookBox, q.elementQueue;
      ProgressRefl(s0, r0, q0);
      SoundRefl(s0);
      if |nCands| - start + |chosen| < n {
        return Ok(false);
      }
      var changed := false;
      for i := start to |nCands|
        invariant Valid() && QueueOk(q) && st.Valid()
        invariant st.stack == old(st.stack) && st.members == old(st.members)
        invariant Progress(s0, r0, q0, grid.Cands(), removedRookBox, q.elementQueue)
        invariant AllQueued(s0, grid.Cands(), q.elementQueue) && Sound(s0, grid.Cands(), {}, false)
        invariant forall j :: 0 <= j < |chosen| ==> grid.Cands()[chosen[j]] <= Union(st.stack[..j + 1])
        invariant changed <==> grid.Cands() != s0
      {
        ghost var s1, r1, q1 := grid.Cands(), removedRookBox, q.elementQueue;
        var step := NakedSetTry(cs, unsolved, nCands, st, chosen, n, start, i, q);
        RemovalsTrans(s0, r0, q0, s1, r1, q1, grid.Cands(), removedRookBox, q.elementQueue, step.Err?);
        if step.Err? {
          return step;
        }
        changed := changed || step.value;
      }
      return Ok(changed);
    }

    /**
     * One turn of the loop of nakedCandidateNRecursiveHelper: pushes the
     * candidates of nCands[i], removes the naked set's digits when n cells are
     * chosen and hold n candidates between them, or else searches further while
     * the stack holds no more than n layers, and pops again.
     */
    method NakedSetTry(cs: seq<int>, unsolved: seq<int>, nCands: seq<int>, st: StackSet,
                       chosen: seq<int>, n: int, start: int, i: int, q: QueueSet<int>) returns (r: Result<bool>)
      requires Valid() && QueueOk(q) && st.Valid() && Group(cs)
      requires forall i :: 0 <= i < |unsolved| ==> unsolved[i] in cs
      requires AllCoords(nCands) && PairwiseSees(nCands) && forall i :: 0 <= i < |nCands| ==> nCands[i] in cs
      requires 0 <= start <= i < |nCands| && |chosen| == |st.stack| && PairwiseSees(chosen)
      requires forall j :: 0 <= j < |chosen| ==> chosen[j] in nCands[..start]
      requires forall j :: 0 <= j < |chosen| ==> grid.Cands()[chosen[j]] <= Union(st.stack[..j + 1])
      modifies this, grid.Repr, q, st
      ensures Valid() && QueueOk(q) && st.Valid()
      ensures Progress(old(grid.Cands()), old(removedRookBox), old(q.elementQueue),
                       grid.Cands(), removedRookBox, q.elementQueue)
      ensures AllQueued(old(grid.Cands()), grid.Cands(), q.elementQueue)
      ensures Sound(old(grid.Cands()), grid.Cands(), {}, r.Err?)
      ensures r.Ok? ==> st.stack == old(st.stack) && st.members == old(st.members)
      ensures r.Ok? ==> (r.value <==> grid.Cands() != old(grid.Cands()))
      decreases |nCands| - i, 1
    {
      ghost var stack0, members0 := st.stack, st.members;
      var x := nCands[i];
      var cands := grid.CandsAt(x);
      var digits := InOrder(cands);
      ghost var s0 := grid.Cands();
      st.Push(digits);
      ghost var stack1, members1 := st.stack, st.members;
      assert Valid() && grid.Cands() == s0;
      InOrderElements(cands);
      NakedSetPushed(s0, stack0, stack1, chosen, nCands, start, i);
      r := NakedSetAct(cs, unsolved, nCands, st, chosen + [x], n, i, q);
      if r.Err? {
        return;
      }
      ghost var s1 := grid.Cands();
      var popped := st.Pop();
      assert Valid() && grid.Cands() == s1;
      assert st.stack == stack0 && st.members == members0 by {
        assert st.stack + [popped.value] == stack0 + [stack1[|stack0|]];
        assert (st.stack + [popped.value])[..|stack0|] == st.stack;
        assert (stack0 + [stack1[|stack0|]])[..|stack0|] == stack0;
      }
    }

    /**
     * The body of that turn once nCands[i] is pushed and chosen: the removals
     * for a naked set, or the deeper search.
     */
    method NakedSetAct(cs: seq<int>, unsolved: seq<int>, nCands: seq<int>, st: StackSet,
                       onStack: seq<int>, n: int, i: int, q: QueueSet<int>) returns (r: Result<bool>)
      requires Valid() && QueueOk(q) && st.Valid() && Group(cs)
      requires forall i :: 0 <= i < |unsolved| ==> unsolved[i] in cs
      requires AllCoords(nCands) && PairwiseSees(nCands) && forall i :: 0 <= i < |nCands| ==> nCands[i] in cs
      requires 0 <= i < |nCands| && |onStack| == |st.stack| && PairwiseSees(onStack)
      requires forall j :: 0 <= j < |onStack| ==> onStack[j] in nCands[..i + 1]
      requires forall j :: 0 <= j < |onStack| ==> grid.Cands()[onStack[j]] <= Union(st.stack[..j + 1])
      modifies this, grid.Repr, q, st
      ensures Valid() && QueueOk(q) && st.Valid()
      ensures Progress(old(grid.Cands()), old(removedRookBox), old(q.elementQueue),
                       grid.Cands(), removedRookBox, q.elementQueue)
      ensures AllQueued(old(grid.Cands()), grid.Cands(), q.elementQueue)
      ensures Sound(old(grid.Cands()), grid.Cands(), {}, r.Err?)
      ensures r.Ok? ==> st.stack == old(st.stack) && st.members == old(st.members)
      ensures r.Ok? ==> (r.value <==> grid.Cands() != old(grid.Cands()))
      decreases |nCands| - i, 0
    {
      ghost var s0, r0, q0 := grid.Cands(), removedRookBox, q.elementQueue;
      ProgressRefl(s0, r0, q0);
      SoundRefl(s0);
      if |onStack| == n {
        if |st.AsSet()| == st.Size() {
          forall j | 0 <= j < |onStack| ensures s0[onStack[j]] <= st.members {
            UnionPrefix(st.stack, j + 1);
          }
          r := NakedSetEliminate(cs, unsolved, onStack, st.AsSet(), q);
          return;
        }
      } else if st.Size() <= n {
        r := NakedSetSearch(cs, unsolved, nCands, st, onStack, n, i + 1, q);
        return;
      }
      r := Ok(false);
    }

    /**
     * The removals of nakedCandidateNRecursiveHelper for one naked set: the
     * digits of u, in increasing order, from every cell of unsolved whose
     * candidates differ from those of every chosen cell.
     */
    method NakedSetEliminate(cs: seq<int>, unsolved: seq<int>, chosen: seq<int>, u: set<int>, q: QueueSet<int>)
      returns (r: Result<bool>)
      requires Valid() && QueueOk(q) && NakedSet(grid.Cands(), cs, chosen, u)
      requires forall i :: 0 <= i < |unsolved| ==> unsolved[i] in cs
      modifies this, grid.Repr, q
      ensures Valid() && QueueOk(q)
      ensures Progress(old(grid.Cands()), old(removedRookBox), old(q.elementQueue),
                       grid.Cands(), removedRookBox, q.elementQueue)
      ensures AllQueued(old(grid.Cands()), grid.Cands(), q.elementQueue)
      ensures Sound(old(grid.Cands()), grid.Cands(), {}, r.Err?)
      ensures r.Ok? ==> (r.value <==> grid.Cands() != old(grid.Cands()))
    {
      ghost var s0, r0, q0 := grid.Cands(), removedRookBox, q.elementQueue;
      ProgressRefl(s0, r0, q0);
      SoundRefl(s0);
      var vals := InOrder(u);
      var changed := false;
      for i := 0 to |unsolved|
        invariant Valid() && QueueOk(q)
        invariant Progress(s0, r0, q0, grid.Cands(), removedRookBox, q.elementQueue)
        invariant AllQueued(s0, grid.Cands(), q.elementQueue) && Sound(s0, grid.Cands(), {}, false)
        invariant NakedSet(grid.Cands(), cs, chosen, u)
        invariant changed <==> grid.Cands() != s0
      {
        var x := unsolved[i];
        if !HasEqualCell(chosen, x) {
          ghost var s1, r1, q1 := grid.Cands(), removedRookBox, q.elementQueue;
          var removed := RemoveAllAndCallNaked(x, vals, q);
          NakedSetStep(s0, r0, q0, s1, r1, q1, grid.Cands(), removedRookBox, q.elementQueue,
                       cs, chosen, u, x, vals, removed.Err?);
          if removed.Err? {
            return removed;
          }
          changed := changed || removed.value;
        }
      }
      return Ok(changed);
    }

    /**
     * Solver.pointingCandidates: for each digit counted two or three times
     * among the unsolved cells of the box on entry, looks at the cells of
     * the box unsolved on entry that carry it now. When they lie in one row,
     * the digit is removed from the rest of that row; when they lie in one
     * column, from the rest of that column.
     */
    method Pointing(row: int, column: int, q: QueueSet<int>) returns (r: Result<bool>)
      requires Valid() && QueueOk(q) && IsIndex(row) && IsIndex(column)
      modifies this, grid.Repr, q
      ensures Valid() && QueueOk(q)
      ensures Progress(old(grid.Cands()), old(removedRookBox), old(q.elementQueue),
                       grid.Cands(), removedRookBox, q.elementQueue)
      ensures SoundWhenPropagated(old(grid.Cands()), grid.Cands(), r.Err?)
      ensures r.Ok? ==> (r.value <==> grid.Cands() != old(grid.Cands()))
    {
      var unsolvedInBox := KeepCandRange(BoxCoords(row, column), 2, 9);
      var frequency := grid.GetBoxCands(row, column);
      r := PointingDigits(row, column, unsolvedInBox, frequency, q);
    }

    /** The loop of pointingCandidates over the digits, with its two snapshots of the box taken on entry. */
    method PointingDigits(row: int, column: int, unsolvedInBox: seq<int>, frequency: map<int, int>, q: QueueSet<int>)
      returns (r: Result<bool>)
      requires Valid() && QueueOk(q) && IsIndex(row) && IsIndex(column)
      requires unsolvedInBox == KeepRange(grid.Cands(), BoxCoords(row, column), 2, 9)
      requires frequency.Keys == Digits
      requires forall d :: d in Digits ==> frequency[d] == Frequency(grid.Cands(), BoxCoords(row, column), d, true)
      modifies this, grid.Repr, q
      ensures Valid() && QueueOk(q)
      ensures Progress(old(grid.Cands()), old(removedRookBox), old(q.elementQueue),
                       grid.Cands(), removedRookBox, q.elementQueue)
      ensures SoundWhenPropagated(old(grid.Cands()), grid.Cands(), r.Err?)
      ensures r.Ok? ==> (r.value <==> grid.Cands() != old(grid.Cands()))
    {
      ghost var s0, r0, q0 := grid.Cands(), removedRookBox, q.elementQueue;
      ProgressRefl(s0, r0, q0);
      SoundWhenPropagatedRefl(s0);
      var changed := false;
      for d := 1 to 10
        invariant Valid() && QueueOk(q)
        invariant Progress(s0, r0, q0, grid.Cands(), removedRookBox, q.elementQueue)
        invariant SoundWhenPropagated(s0, grid.Cands(), false)
        invariant changed <==> grid.Cands() != s0
      {
        if frequency[d] == 2 || frequency[d] == 3 {
          ghost var s1, r1, q1 := grid.Cands(), removedRookBox, q.elementQueue;
          var step := PointingDigit(row, column, unsolvedInBox, d, q, s0);
          DecidedStep(s0, r0, q0, s1, r1, q1, grid.Cands(), removedRookBox, q.elementQueue, step.Err?);
          if step.Err? {
            return step;
          }
          changed := changed || step.value;
        }
      }
      return Ok(changed);
    }

    /**
     * One digit of pointingCandidates; unsolved is keepCandRange of the box
     * in the board s0 of entry, where some unsolved cell of the box carried d.
     */
    method PointingDigit(row: int, column: int, unsolved: seq<int>, d: int, q: QueueSet<int>,
                         ghost s0: seq<set<int>>) returns (r: Result<bool>)
      requires Valid() && QueueOk(q) && IsIndex(row) && IsIndex(column) && IsDigit(d)
      requires WellFormed(s0) && Shrinks(s0, grid.Cands())
      requires unsolved == KeepRange(s0, BoxCoords(row, column), 2, 9)
      requires Frequency(s0, BoxCoords(row, column), d, true) > 0
      modifies this, grid.Repr, q
      ensures Valid() && QueueOk(q)
      ensures Progress(old(grid.Cands()), old(removedRookBox), old(q.elementQueue),
                       grid.Cands(), removedRookBox, q.elementQueue)
      ensures Propagated(s0) ==> Sound(old(grid.Cands()), grid.Cands(), {}, r.Err?)
      ensures r.Ok? ==> (r.value <==> grid.Cands() != old(grid.Cands()))
    {
      ghost var s1 := grid.Cands();
      KeepRangeMembers(s0, BoxCoords(row, column), 2, 9);
      var rows, columns := CarrierLines(unsolved, d);
      ghost var inRow, inColumn := AlongTargets(rows, columns, true, d), AlongTargets(columns, rows, false, d);
      r := PointingLines(rows, columns, d, q);
      if Propagated(s0) {
        forall sol | IsSolution(sol) && Consistent(sol, s1) ensures Excludes(sol, inRow + inColumn) {
          PointingSound(s0, s1, row, column, d, sol);
        }
        SoundDropAll(s1, grid.Cands(), inRow + inColumn, r.Err?);
      }
    }

    /** Both halves of pointingCandidates for one digit: along the row, then along the column. */
    method PointingLines(rows: set<int>, columns: set<int>, d: int, q: QueueSet<int>) returns (r: Result<bool>)
      requires Valid() && QueueOk(q)
      requires forall i :: i in rows ==> IsIndex(i)
      requires forall i :: i in columns ==> IsIndex(i)
      modifies this, grid.Repr, q
      ensures Valid() && QueueOk(q)
      ensures Progress(old(grid.Cands()), old(removedRookBox), old(q.elementQueue),
                       grid.Cands(), removedRookBox, q.elementQueue)
      ensures Sound(old(grid.Cands()), grid.Cands(),
                    AlongTargets(rows, columns, true, d) + AlongTargets(columns, rows, false, d), r.Err?)
      ensures r.Ok? ==> (r.value <==> grid.Cands() != old(grid.Cands()))
    {
      ghost var s1, r1, q1 := grid.Cands(), removedRookBox, q.elementQueue;
      ghost var inRow, inColumn := AlongTargets(rows, columns, true, d), AlongTargets(columns, rows, false, d);
      r := PointingLine(rows, columns, true, d, q);
      if r.Ok? {
        ghost var s2, r2, q2 := grid.Cands(), removedRookBox, q.elementQueue;
        var removed := PointingLine(columns, rows, false, d, q);
        TargetsTrans(s1, r1, q1, s2, r2, q2, grid.Cands(), removedRookBox, q.elementQueue, inRow, inColumn, removed.Err?);
        r := if removed.Err? then removed else Ok(r.value || removed.value);
      } else {
        SoundWiden(s1, grid.Cands(), inRow, inRow + inColumn, true);
      }
    }

    /**
     * One half of pointingCandidates: when `lines` holds a single row (byRow)
     * or column, removes d from the cells of that line whose index along it
     * is not in `crossing`.
     */
    method PointingLine(lines: set<int>, crossing: set<int>, byRow: bool, d: int, q: QueueSet<int>)
      returns (r: Result<bool>)
      requires Valid() && QueueOk(q) && forall i :: i in lines ==> IsIndex(i)
      modifies this, grid.Repr, q
      ensures Valid() && QueueOk(q)
      ensures Progress(old(grid.Cands()), old(removedRookBox), old(q.elementQueue),
                       grid.Cands(), removedRookBox, q.elementQueue)
      ensures Sound(old(grid.Cands()), grid.Cands(), AlongTargets(lines, crossing, byRow, d), r.Err?)
      ensures r.Ok? ==> (r.value <==> grid.Cands() != old(grid.Cands()))
      ensures |lines| != 1 ==> r == Ok(false) && grid.Cands() == old(grid.Cands())
    {
      if |lines| != 1 {
        ProgressRefl(grid.Cands(), removedRookBox, q.elementQueue);
        SoundRefl(grid.Cands());
        return Ok(false);
      }
      var line := FirstIndex(lines);
      var cs := if byRow then RowCoords(line) else ColumnCoords(line);
      r := RemoveOutside(cs, crossing, d, q);
      forall t | t in LineTargets(cs, crossing, d) ensures t in AlongTargets(lines, crossing, byRow, d) {
        var j :| 0 <= j < |cs| && j !in crossing && t == (cs[j], d);
      }
      SoundWiden(old(grid.Cands()), grid.Cands(), LineTargets(cs, crossing, d), AlongTargets(lines, crossing, byRow, d), r.Err?);
    }

    /**
     * set.iterator().next() on a nonempty HashSet of row or column indices:
     * small Integers hash to themselves, so iteration starts at the least.
     */
    static method FirstIndex(s: set<int>) returns (i: int)
      requires 0 < |s| && forall x :: x in s ==> IsIndex(x)
      ensures i in s && forall j :: j in s ==> i <= j
    {
      i := 0;
      while i < 9
        invariant 0 <= i <= 9
        invariant forall j :: 0 <= j < i ==> j !in s
      {
        if i in s {
          return;
        }
        i := i + 1;
      }
      assert false;
    }

    /**
     * The loop of pointingCandidates over the unsolved cells of the box: the
     * rows and the columns of those that carry d.
     */
    method CarrierLines(cs: seq<int>, d: int) returns (rows: set<int>, columns: set<int>)
      requires Valid() && AllCoords(cs)
      ensures rows == RowsOf(Carriers(grid.Cands(), cs, d))
      ensures columns == ColumnsOf(Carriers(grid.Cands(), cs, d))
    {
      rows, columns := {}, {};
      for i := 0 to |cs|
        invariant rows == RowsOf(Carriers(grid.Cands(), cs[..i], d))
        invariant columns == ColumnsOf(Carriers(grid.Cands(), cs[..i], d))
      {
        assert cs[..i + 1][..i] == cs[..i];
        if d in grid.CandsAt(cs[i]) {
          LinesOfSnoc(Carriers(grid.Cands(), cs[..i], d), cs[i]);
          rows, columns := rows + {RowOf(cs[i])}, columns + {ColumnOf(cs[i])};
        }
      }
      assert cs[..|cs|] == cs;
    }

    /**
     * A removal loop of pointingCandidates: removes d from each cell of the
     * line cs, in order, whose index along the line is not in skip.
     */
    method RemoveOutside(cs: seq<int>, skip: set<int>, d: int, q: QueueSet<int>) returns (r: Result<bool>)
      requires Valid() && QueueOk(q) && AllCoords(cs)
      modifies this, grid.Repr, q
      ensures Valid() && QueueOk(q)
      ensures Progress(old(grid.Cands()), old(removedRookBox), old(q.elementQueue),
                       grid.Cands(), removedRookBox, q.elementQueue)
      ensures Sound(old(grid.Cands()), grid.Cands(), LineTargets(cs, skip, d), r.Err?)
      ensures r.Ok? ==> forall i :: 0 <= i < |cs| && i !in skip ==> d !in grid.Cands()[cs[i]]
      ensures r.Ok? ==> (r.value <==> grid.Cands() != old(grid.Cands()))
    {
      ghost var s0, r0, q0 := grid.Cands(), removedRookBox, q.elementQueue;
      ProgressRefl(s0, r0, q0);
      SoundRefl(s0);
      var changed := false;
      for i := 0 to |cs|
        invariant Valid() && QueueOk(q)
        invariant Progress(s0, r0, q0, grid.Cands(), removedRookBox, q.elementQueue)
        invariant Sound(s0, grid.Cands(), LineTargets(cs[..i], skip, d), false)
        invariant forall j :: 0 <= j < i && j !in skip ==> d !in grid.Cands()[cs[j]]
        invariant changed <==> grid.Cands() != s0
      {
        assert LineTargets(cs[..i + 1], skip, d) ==
          LineTargets(cs[..i], skip, d) + (if i in skip then {} else {(cs[i], d)});
        if i !in skip {
          ghost var s1, r1, q1 := grid.Cands(), removedRookBox, q.elementQueue;
          var removed := RemoveAndCallNaked(cs[i], d, q);
          TargetsTrans(s0, r0, q0, s1, r1, q1, grid.Cands(), removedRookBox, q.elementQueue,
                       LineTargets(cs[..i], skip, d), {(cs[i], d)}, removed.Err?);
          if removed.Err? {
            assert cs[..i + 1] <= cs;
            SoundWiden(s0, grid.Cands(), LineTargets(cs[..i + 1], skip, d), LineTargets(cs, skip, d), true);
            return removed;
          }
          changed := changed || removed.value;
        }
      }
      assert cs[..|cs|] == cs;
      return Ok(changed);
    }

    /**
     * Solver.claimingCandidates(row, column): the claiming rule on the row,
     * then on the column, each with the counts of its unsolved cells taken
     * when it starts.
     */
    method Claiming(row: int, column: int, q: QueueSet<int>) returns (r: Result<bool>)
      requires Valid() && QueueOk(q) && IsIndex(row) && IsIndex(column)
      modifies this, grid.Repr, q
      ensures Valid() && QueueOk(q)
      ensures Progress(old(grid.Cands()), old(removedRookBox), old(q.elementQueue),
                       grid.Cands(), removedRookBox, q.elementQueue)
      ensures SoundWhenPropagated(old(grid.Cands()), grid.Cands(), r.Err?)
      ensures r.Ok? ==> (r.value <==> grid.Cands() != old(grid.Cands()))
    {
      ghost var s0, r0, q0 := grid.Cands(), removedRookBox, q.elementQueue;
      RowGroup(row);
      var rowFrequency := grid.GetRowCands(row);
      assert Valid() && grid.Cands() == s0;
      var inRow := ClaimingGroup(RowCoords(row), rowFrequency, q);
      if inRow.Err? {
        return inRow;
      }
      ghost var s1, r1, q1 := grid.Cands(), removedRookBox, q.elementQueue;
      ColumnGroup(column);
      var columnFrequency := grid.GetColumnCands(column);
      assert Valid() && grid.Cands() == s1;
      var inColumn := ClaimingGroup(ColumnCoords(column), columnFrequency, q);
      SoundWhenPropagatedTrans(s0, r0, q0, s1, r1, q1, grid.Cands(), removedRookBox, q.elementQueue, inColumn.Err?);
      ChangedTrans(s0, s1, grid.Cands());
      if inColumn.Err? {
        return inColumn;
      }
      return Ok(inRow.value || inColumn.value);
    }

    /**
     * Solver.claimingCandidates(cells, frequency): for each digit counted two
     * or three times among the unsolved cells of the group, looks at the
     * cells of the group unsolved on entry that carry it now. When they lie
     * in one box, the digit is removed from the other cells of that box.
     */
    method ClaimingGroup(cs: seq<int>, frequency: map<int, int>, q: QueueSet<int>) returns (r: Result<bool>)
      requires Valid() && QueueOk(q) && Group(cs)
      requires frequency.Keys == Digits
      requires forall d :: d in Digits ==> frequency[d] == Frequency(grid.Cands(), cs, d, true)
      modifies this, grid.Repr, q
      ensures Valid() && QueueOk(q)
      ensures Progress(old(grid.Cands()), old(removedRookBox), old(q.elementQueue),
                       grid.Cands(), removedRookBox, q.elementQueue)
      ensures SoundWhenPropagated(old(grid.Cands()), grid.Cands(), r.Err?)
      ensures r.Ok? ==> (r.value <==> grid.Cands() != old(grid.Cands()))
    {
      var unsolved := KeepCandRange(cs, 2, 9);
      ghost var s0, r0, q0 := grid.Cands(), removedRookBox, q.elementQueue;
      ProgressRefl(s0, r0, q0);
      SoundWhenPropagatedRefl(s0);
      var changed := false;
      for d := 1 to 10
        invariant Valid() && QueueOk(q)
        invariant Progress(s0, r0, q0, grid.Cands(), removedRookBox, q.elementQueue)
        invariant SoundWhenPropagated(s0, grid.Cands(), false)
        invariant changed <==> grid.Cands() != s0
      {
        if frequency[d] == 2 || frequency[d] == 3 {
          ghost var s1, r1, q1 := grid.Cands(), removedRookBox, q.elementQueue;
          var step := ClaimingDigit(cs, unsolved, d, q, s0);
          DecidedStep(s0, r0, q0, s1, r1, q1, grid.Cands(), removedRookBox, q.elementQueue, step.Err?);
          if step.Err? {
            return step;
          }
          changed := changed || step.value;
        }
      }
      return Ok(changed);
    }

    /**
     * One digit of claimingCandidates; unsolved is keepCandRange of the group
     * in the board s0 of entry, where some unsolved cell of the group carried d.
     */
    method ClaimingDigit(cs: seq<int>, unsolved: seq<int>, d: int, q: QueueSet<int>, ghost s0: seq<set<int>>)
      returns (r: Result<bool>)
      requires Valid() && QueueOk(q) && Group(cs) && IsDigit(d)
      requires WellFormed(s0) && Shrinks(s0, grid.Cands())
      requires unsolved == KeepRange(s0, cs, 2, 9) && Frequency(s0, cs, d, true) > 0
      modifies this, grid.Repr, q
      ensures Valid() && QueueOk(q)
      ensures Progress(old(grid.Cands()), old(removedRookBox), old(q.elementQueue),
                       grid.Cands(), removedRookBox, q.elementQueue)
      ensures Propagated(s0) ==> Sound(old(grid.Cands()), grid.Cands(), {}, r.Err?)
      ensures r.Ok? ==> (r.value <==> grid.Cands() != old(grid.Cands()))
    {
      ghost var s1, r1, q1 := grid.Cands(), removedRookBox, q.elementQueue;
      KeepRangeMembers(s0, cs, 2, 9);
      var contains, boxes := CarrierBoxes(unsolved, d);
      assert grid.Cands() == s1;
      if |boxes| != 1 {
        ProgressRefl(s1, r1, q1);
        SoundRefl(s1);
        return Ok(false);
      }
      var first := contains[0];
      CoordInverse(first);
      var box := BoxCoords(RowOf(first), ColumnOf(first));
      r := RemoveUnlisted(box, contains, d, q);
      if Propagated(s0) {
        assert forall sol :: IsSolution(sol) && Consistent(sol, s1) ==> Excludes(sol, UnlistedTargets(box, contains, d)) by {
          forall sol | IsSolution(sol) && Consistent(sol, s1) ensures Excludes(sol, UnlistedTargets(box, contains, d)) {
            ClaimingSound(s0, s1, cs, d, sol);
          }
        }
        SoundDropAll(s1, grid.Cands(), UnlistedTargets(box, contains, d), r.Err?);
      }
    }

    /**
     * The loop of claimingCandidates over the unsolved cells of the group:
     * the list of those that carry d, and the set of their box numbers.
     */
    method CarrierBoxes(cs: seq<int>, d: int) returns (contains: seq<int>, boxes: set<int>)
      requires Valid() && AllCoords(cs)
      ensures contains == Carriers(grid.Cands(), cs, d)
      ensures boxes == BoxesOf(contains)
    {
      ghost var s := grid.Cands();
      contains, boxes := [], {};
      for i := 0 to |cs|
        invariant contains == Carriers(s, cs[..i], d)
        invariant boxes == BoxesOf(contains)
      {
        assert cs[..i + 1][..i] == cs[..i];
        var x := cs[i];
        if d in grid.CandsAt(x) {
          assert BoxesOf(contains + [x]) == BoxesOf(contains) + {BoxNumber(x)};
          contains := contains + [x];
          boxes := boxes + {BoxNumber(x)};
        }
      }
      assert cs[..|cs|] == cs;
    }

    /**
     * The removal loop of claimingCandidates: removes d, in order, from each
     * cell of cs that List.contains does not find in keep, that is, whose
     * candidates are, at that moment, those of no cell of keep.
     */
    method RemoveUnlisted(cs: seq<int>, keep: seq<int>, d: int, q: QueueSet<int>) returns (r: Result<bool>)
      requires Valid() && QueueOk(q) && AllCoords(cs) && AllCoords(keep)
      modifies this, grid.Repr, q
      ensures Valid() && QueueOk(q)
      ensures Progress(old(grid.Cands()), old(removedRookBox), old(q.elementQueue),
                       grid.Cands(), removedRookBox, q.elementQueue)
      ensures Sound(old(grid.Cands()), grid.Cands(), UnlistedTargets(cs, keep, d), r.Err?)
      ensures r.Ok? ==> (r.value <==> grid.Cands() != old(grid.Cands()))
    {
      ghost var s0, r0, q0 := grid.Cands(), removedRookBox, q.elementQueue;
      ProgressRefl(s0, r0, q0);
      SoundRefl(s0);
      var changed := false;
      for i := 0 to |cs|
        invariant Valid() && QueueOk(q)
        invariant Progress(s0, r0, q0, grid.Cands(), removedRookBox, q.elementQueue)
        invariant Sound(s0, grid.Cands(), UnlistedTargets(cs[..i], keep, d), false)
        invariant changed <==> grid.Cands() != s0
      {
        assert UnlistedTargets(cs[..i], keep, d) <= UnlistedTargets(cs[..i + 1], keep, d);
        if !HasEqualCell(keep, cs[i]) {
          assert (cs[i], d) in UnlistedTargets(cs[..i + 1], keep, d);
          ghost var s1, r1, q1 := grid.Cands(), removedRookBox, q.elementQueue;
          var removed := RemoveAndCallNaked(cs[i], d, q);
          TargetsTrans(s0, r0, q0, s1, r1, q1, grid.Cands(), removedRookBox, q.elementQueue,
                       UnlistedTargets(cs[..i], keep, d), {(cs[i], d)}, removed.Err?);
          SoundWiden(s0, grid.Cands(), UnlistedTargets(cs[..i], keep, d) + {(cs[i], d)},
                     UnlistedTargets(cs[..i + 1], keep, d), removed.Err?);
          if removed.Err? {
            assert UnlistedTargets(cs[..i + 1], keep, d) <= UnlistedTargets(cs, keep, d);
            SoundWiden(s0, grid.Cands(), UnlistedTargets(cs[..i + 1], keep, d), UnlistedTargets(cs, keep, d), true);
            return removed;
          }
          changed := changed || removed.value;
        } else {
          SoundWiden(s0, grid.Cands(), UnlistedTargets(cs[..i], keep, d), UnlistedTargets(cs[..i + 1], keep, d), false);
        }
      }
      assert cs[..|cs|] == cs;
      return Ok(changed);
    }

    /**
     * Solver.xWing: X-wings with base rows on this grid, then X-wings with
     * base rows on a copy turned a quarter clockwise, whose rows are the
     * columns of this grid; the copy, turned back, is merged into this grid.
     * The result says whether either search changed its grid. A failure of
     * either search ends the rule, as the source's exception does.
     */
    method XWing(row: int, column: int, q: QueueSet<int>) returns (r: Result<bool>)
      requires Valid() && QueueOk(q) && IsIndex(row) && IsIndex(column)
      modifies this, grid.Repr, q
      ensures Valid() && QueueOk(q)
      ensures Progress(old(grid.Cands()), old(removedRookBox), old(q.elementQueue),
                       grid.Cands(), removedRookBox, q.elementQueue)
      ensures SoundWhenPropagated(old(grid.Cands()), grid.Cands(), r.Err? && r.error == NoCandidatesLeft)
      ensures r.Ok? ==> (r.value <==> grid.Cands() != old(grid.Cands()))
    {
      ghost var s0, r0, q0 := grid.Cands(), removedRookBox, q.elementQueue;
      var inRows := XWingRows(row, q);
      if inRows.Err? {
        return inRows;
      }
      ghost var s1, r1, q1 := grid.Cands(), removedRookBox, q.elementQueue;
      var inColumns := XWingTurned(column, q);
      SoundWhenPropagatedTrans(s0, r0, q0, s1, r1, q1, grid.Cands(), removedRookBox, q.elementQueue,
                               inColumns.Err? && inColumns.error == NoCandidatesLeft);
      ChangedTrans(s0, s1, grid.Cands());
      if inColumns.Err? {
        return inColumns;
      }
      return Ok(inRows.value || inColumns.value);
    }

    /**
     * The second half of Solver.xWing: X-wings on columns, found on a copy of
     * the grid, are merged into this grid. The result is that of the search
     * on the copy; the merge's is not used.
     */
    method XWingTurned(column: int, q: QueueSet<int>) returns (r: Result<bool>)
      requires Valid() && QueueOk(q) && IsIndex(column)
      modifies this, grid.Repr, q
      ensures Valid() && QueueOk(q)
      ensures Progress(old(grid.Cands()), old(removedRookBox), old(q.elementQueue),
                       grid.Cands(), removedRookBox, q.elementQueue)
      ensures SoundWhenPropagated(old(grid.Cands()), grid.Cands(), r.Err? && r.error == NoCandidatesLeft)
      ensures r.Ok? ==> (r.value <==> grid.Cands() != old(grid.Cands()))
    {
      ghost var s0, r0, q0 := grid.Cands(), removedRookBox, q.elementQueue;
      var inColumns, back;
      ghost var t;
      inColumns, back, t := SearchColumns(grid, column);
      assert grid.Cands() == s0 && q.elementQueue == q0;
      TurnedRun(s0, t, inColumns.Ok?, inColumns.Ok? && inColumns.value,
                inColumns.Err? && inColumns.error == NoCandidatesLeft);
      if inColumns.Err? {
        ProgressRefl(s0, r0, q0);
        return inColumns;
      }
      ghost var b := back.Cands();
      assert b == RotateCounterClockwiseBoard(t);
      var merged := MergeGrid(back, q);
      MergeKept(Propagated(s0), s0, b, grid.Cands(), merged.Err?);
      r := if merged.Err? then merged else Ok(inColumns.value);
    }

    /**
     * The X-wing search of Solver.xWing on columns: a new solver, with a
     * queue of its own, looks for X-wings with base row `column` on a copy
     * of g turned a quarter clockwise, and `back` is that copy, t, turned
     * back.
     */
    static method SearchColumns(g: Grid, column: int) returns (r: Result<bool>, back: Grid, ghost t: seq<set<int>>)
      requires g.Valid() && IsIndex(column)
      ensures fresh(back) && fresh(back.Repr) && back.Valid() && WellFormed(t)
      ensures back.Cands() == RotateCounterClockwiseBoard(t)
      ensures Shrinks(Apply(RotateClockwise, g.Cands()), t)
      ensures SoundWhenPropagated(Apply(RotateClockwise, g.Cands()), t, r.Err? && r.error == NoCandidatesLeft)
      ensures r.Ok? ==> (r.value <==> t != Apply(RotateClockwise, g.Cands()))
    {
      ghost var s := g.Cands();
      var clockwise := RotateClockwiseGrid(g);
      ghost var a := clockwise.Cands();
      assert a == Apply(RotateClockwise, s);
      r := SearchRows(clockwise, column);
      assert g.Cands() == s;
      back := RotateCounterClockwiseGrid(clockwise);
      t := clockwise.Cands();
      assert g.Cands() == s;
    }

    /** The search of a new solver, with a new queue, for X-wings with base row `row` on grid g. */
    static method SearchRows(g: Grid, row: int) returns (r: Result<bool>)
      requires g.Valid() && IsIndex(row)
      modifies g.Repr
      ensures g.Valid() && Shrinks(old(g.Cands()), g.Cands())
      ensures SoundWhenPropagated(old(g.Cands()), g.Cands(), r.Err? && r.error == NoCandidatesLeft)
      ensures r.Ok? ==> (r.value <==> g.Cands() != old(g.Cands()))
    {
      var solver := new Solver(g);
      var scratch := new QueueSet<int>();
      r := solver.XWingRows(row, scratch);
    }

    /**
     * Solver.mergeGrid: visiting the cells row by row, a cell with fewer
     * candidates in `from` than here loses, through removeAndCallNaked and
     * in increasing order, each candidate it has here that `from` lacks.
     */
    method MergeGrid(from: Grid, q: QueueSet<int>) returns (r: Result<bool>)
      requires Valid() && QueueOk(q) && from.Valid() && from.Repr !! grid.Repr
      modifies this, grid.Repr, q
      ensures Valid() && QueueOk(q) && from.Valid() && from.Cands() == old(from.Cands())
      ensures Progress(old(grid.Cands()), old(removedRookBox), old(q.elementQueue),
                       grid.Cands(), removedRookBox, q.elementQueue)
      ensures Sound(old(grid.Cands()), grid.Cands(), MergeTargets(from.Cands()), r.Err?)
      ensures r.Err? ==> r.error == NoCandidatesLeft
      ensures r.Ok? ==> (r.value <==> grid.Cands() != old(grid.Cands()))
      ensures r.Ok? && Shrinks(old(grid.Cands()), from.Cands()) ==>
        (grid.Cands() != old(grid.Cands()) <==> from.Cands() != old(grid.Cands()))
    {
      ghost var s0, r0, q0 := grid.Cands(), removedRookBox, q.elementQueue;
      ghost var f := from.Cands();
      ProgressRefl(s0, r0, q0);
      SoundRefl(s0);
      var changed := false;
      for k := 0 to 81
        invariant Valid() && QueueOk(q) && from.Valid() && from.Cands() == f
        invariant Progress(s0, r0, q0, grid.Cands(), removedRookBox, q.elementQueue)
        invariant Sound(s0, grid.Cands(), MergeTargets(f), false)
        invariant changed <==> grid.Cands() != s0
        invariant Shrinks(s0, f) && grid.Cands() == s0 ==> forall j :: 0 <= j < k ==> f[j] == s0[j]
        invariant (forall j :: 0 <= j < k ==> f[j] == s0[j]) ==> grid.Cands() == s0
      {
        ghost var s1, r1, q1 := grid.Cands(), removedRookBox, q.elementQueue;
        var step := MergeCell(k, from, q);
        TargetsTrans(s0, r0, q0, s1, r1, q1, grid.Cands(), removedRookBox, q.elementQueue,
                     MergeTargets(f), MergeTargets(f), step.Err?);
        if step.Err? {
          return step;
        }
        changed := changed || step.value;
      }
      if Shrinks(s0, f) && grid.Cands() == s0 {
        assert f == s0;
      }
      return Ok(changed);
    }

    /**
     * One cell k of mergeGrid: when `from` has fewer candidates there, the
     * candidates it lacks are removed in increasing order (the inner loop of
     * mergeGrid is removeAllAndCallNaked over them).
     */
    method MergeCell(k: int, from: Grid, q: QueueSet<int>) returns (r: Result<bool>)
      requires Valid() && QueueOk(q) && IsCoord(k) && from.Valid() && from.Repr !! grid.Repr
      modifies this, grid.Repr, q
      ensures Valid() && QueueOk(q) && from.Valid() && from.Cands() == old(from.Cands())
      ensures Progress(old(grid.Cands()), old(removedRookBox), old(q.elementQueue),
                       grid.Cands(), removedRookBox, q.elementQueue)
      ensures Sound(old(grid.Cands()), grid.Cands(), MergeTargets(from.Cands()), r.Err?)
      ensures r.Err? ==> r.error == NoCandidatesLeft
      ensures r.Ok? ==> (r.value <==> grid.Cands() != old(grid.Cands()))
      ensures r.Ok? && from.Cands()[k] < old(grid.Cands())[k] ==> grid.Cands() != old(grid.Cands())
      ensures |from.Cands()[k]| >= |old(grid.Cands())[k]| ==> r == Ok(false) && grid.Cands() == old(grid.Cands())
    {
      ghost var f := from.Cands();
      r := MergeCands(k, from.CandsAt(k), q);
      assert CellMergeTargets(k, f[k]) <= MergeTargets(f);
      SoundWiden(old(grid.Cands()), grid.Cands(), CellMergeTargets(k, f[k]), MergeTargets(f), r.Err?);
    }

    /**
     * The body of mergeGrid for cell k, with fromCands the candidates of
     * `from` there: when they are fewer than the cell's own, the cell's
     * candidates missing from them are removed in increasing order (that loop
     * is removeAllAndCallNaked over them).
     */
    method MergeCands(k: int, fromCands: set<int>, q: QueueSet<int>) returns (r: Result<bool>)
      requires Valid() && QueueOk(q) && IsCoord(k)
      modifies this, grid.Repr, q
      ensures Valid() && QueueOk(q)
      ensures Progress(old(grid.Cands()), old(removedRookBox), old(q.elementQueue),
                       grid.Cands(), removedRookBox, q.elementQueue)
      ensures Sound(old(grid.Cands()), grid.Cands(), CellMergeTargets(k, fromCands), r.Err?)
      ensures r.Err? ==> r.error == NoCandidatesLeft
      ensures r.Ok? ==> (r.value <==> grid.Cands() != old(grid.Cands()))
      ensures r.Ok? ==> forall v :: v in old(grid.Cands())[k] && v !in fromCands && |fromCands| < |old(grid.Cands())[k]| ==>
        v !in grid.Cands()[k]
      ensures r.Ok? && fromCands < old(grid.Cands())[k] ==> grid.Cands() != old(grid.Cands())
      ensures |fromCands| >= |old(grid.Cands())[k]| ==> r == Ok(false) && grid.Cands() == old(grid.Cands())
    {
      ghost var s0, r0, q0 := grid.Cands(), removedRookBox, q.elementQueue;
      var gridCands := grid.CandsAt(k);
      if fromCands <= gridCands {
        StrictSubsetSize(fromCands, gridCands);
      }
      if |fromCands| < |gridCands| {
        var missing := gridCands - fromCands;
        InOrderElements(missing);
        r := RemoveAllAndCallNaked(k, InOrder(missing), q);
        assert CellTargets(k, InOrder(missing)) <= CellMergeTargets(k, fromCands);
        SoundWiden(s0, grid.Cands(), CellTargets(k, InOrder(missing)), CellMergeTargets(k, fromCands), r.Err?);
        if r.Ok? && fromCands < gridCands {
          assert InOrder(missing) != [];
          assert InOrder(missing)[0] !in grid.Cands()[k];
        }
      } else {
        ProgressRefl(s0, r0, q0);
        SoundRefl(s0);
        r := Ok(false);
      }
    }

    /**
     * Solver.xWingRows with base row `row`, on this solver's own grid (the
     * grid the source passes in is always that one). The counts of the
     * unsolved cells of the base row are taken on entry.
     */
    method XWingRows(row: int, q: QueueSet<int>) returns (r: Result<bool>)
      requires Valid() && QueueOk(q) && IsIndex(row)
      modifies this, grid.Repr, q
      ensures Valid() && QueueOk(q)
      ensures Progress(old(grid.Cands()), old(removedRookBox), old(q.elementQueue),
                       grid.Cands(), removedRookBox, q.elementQueue)
      ensures SoundWhenPropagated(old(grid.Cands()), grid.Cands(), r.Err? && r.error == NoCandidatesLeft)
      ensures r.Ok? ==> (r.value <==> grid.Cands() != old(grid.Cands()))
    {
      var frequency := grid.GetRowCands(row);
      r := XWingDigits(row, frequency, q);
    }

    /** The loop of xWingRows over the digits counted twice in the base row. */
    method XWingDigits(row: int, frequency: map<int, int>, q: QueueSet<int>) returns (r: Result<bool>)
      requires Valid() && QueueOk(q) && IsIndex(row)
      requires frequency.Keys == Digits
      requires forall d :: d in Digits ==> frequency[d] == Frequency(grid.Cands(), RowCoords(row), d, true)
      modifies this, grid.Repr, q
      ensures Valid() && QueueOk(q)
      ensures Progress(old(grid.Cands()), old(removedRookBox), old(q.elementQueue),
                       grid.Cands(), removedRookBox, q.elementQueue)
      ensures SoundWhenPropagated(old(grid.Cands()), grid.Cands(), r.Err? && r.error == NoCandidatesLeft)
      ensures r.Ok? ==> (r.value <==> grid.Cands() != old(grid.Cands()))
    {
      ghost var s0, r0, q0 := grid.Cands(), removedRookBox, q.elementQueue;
      ProgressRefl(s0, r0, q0);
      SoundWhenPropagatedRefl(s0);
      var changed := false;
      for d := 1 to 10
        invariant Valid() && QueueOk(q)
        invariant Progress(s0, r0, q0, grid.Cands(), removedRookBox, q.elementQueue)
        invariant SoundWhenPropagated(s0, grid.Cands(), false)
        invariant changed <==> grid.Cands() != s0
      {
        if frequency[d] == 2 {
          ghost var s1, r1, q1 := grid.Cands(), removedRookBox, q.elementQueue;
          var step := XWingDigit(row, d, q, s0, r0, q0);
          DecidedStep(s0, r0, q0, s1, r1, q1, grid.Cands(), removedRookBox, q.elementQueue,
                      step.Err? && step.error == NoCandidatesLeft);
          if step.Err? {
            return step;
          }
          changed := changed || step.value;
        }
      }
      return Ok(changed);
    }

    /**
     * One digit d of xWingRows: the columns of the base row's cells that
     * carry d now, then the search for a second row over those columns.
     */
    method XWingDigit(row: int, d: int, q: QueueSet<int>,
                      ghost s0: seq<set<int>>, ghost r0: set<int>, ghost q0: seq<int>) returns (r: Result<bool>)
      requires Valid() && QueueOk(q) && IsIndex(row) && IsDigit(d)
      requires Progress(s0, r0, q0, grid.Cands(), removedRookBox, q.elementQueue) && RecordedSolved(s0, r0)
      requires Frequency(s0, RowCoords(row), d, true) == 2
      modifies this, grid.Repr, q
      ensures Valid() && QueueOk(q)
      ensures Progress(old(grid.Cands()), old(removedRookBox), old(q.elementQueue),
                       grid.Cands(), removedRookBox, q.elementQueue)
      ensures Propagated(s0) ==> Sound(old(grid.Cands()), grid.Cands(), {}, r.Err? && r.error == NoCandidatesLeft)
      ensures r.Ok? ==> (r.value <==> grid.Cands() != old(grid.Cands()))
    {
      var columns := HolderColumns(row, d);
      r := XWingPartners(row, d, columns, q, s0, r0, q0);
    }

    /**
     * The loop of xWingRows that lists, left to right, the columns of the
     * base row's cells (solved or not) that carry d.
     */
    method HolderColumns(row: int, d: int) returns (columns: seq<int>)
      requires Valid() && IsIndex(row)
      ensures forall i :: 0 <= i < |columns| ==> IsIndex(columns[i]) && d in grid.Cands()[Coord(row, columns[i])]
      ensures forall i, j :: 0 <= i < j < |columns| ==> columns[i] < columns[j]
      ensures forall c :: IsIndex(c) && d in grid.Cands()[Coord(row, c)] ==> c in columns
    {
      columns := [];
      for c := 0 to 9
        invariant forall i :: 0 <= i < |columns| ==> 0 <= columns[i] < c && d in grid.Cands()[Coord(row, columns[i])]
        invariant forall i, j :: 0 <= i < j < |columns| ==> columns[i] < columns[j]
        invariant forall e :: 0 <= e < c && d in grid.Cands()[Coord(row, e)] ==> e in columns
      {
        if d in grid.GetCands(row, c) {
          columns := columns + [c];
        }
      }
    }

    /** The loop of xWingRows over the rows other than the base row. */
    method XWingPartners(row: int, d: int, columns: seq<int>, q: QueueSet<int>,
                         ghost s0: seq<set<int>>, ghost r0: set<int>, ghost q0: seq<int>) returns (r: Result<bool>)
      requires Valid() && QueueOk(q) && IsIndex(row) && IsDigit(d)
      requires Progress(s0, r0, q0, grid.Cands(), removedRookBox, q.elementQueue) && RecordedSolved(s0, r0)
      requires Frequency(s0, RowCoords(row), d, true) == 2
      requires forall i :: 0 <= i < |columns| ==> IsIndex(columns[i]) && d in s0[Coord(row, columns[i])]
      requires forall i, j :: 0 <= i < j < |columns| ==> columns[i] < columns[j]
      modifies this, grid.Repr, q
      ensures Valid() && QueueOk(q)
      ensures Progress(old(grid.Cands()), old(removedRookBox), old(q.elementQueue),
                       grid.Cands(), removedRookBox, q.elementQueue)
      ensures Propagated(s0) ==> Sound(old(grid.Cands()), grid.Cands(), {}, r.Err? && r.error == NoCandidatesLeft)
      ensures r.Ok? ==> (r.value <==> grid.Cands() != old(grid.Cands()))
    {
      ghost var s1, r1, q1 := grid.Cands(), removedRookBox, q.elementQueue;
      ProgressRefl(s1, r1, q1);
      SoundRefl(s1);
      var changed := false;
      for other := 0 to 9
        invariant Valid() && QueueOk(q)
        invariant Progress(s1, r1, q1, grid.Cands(), removedRookBox, q.elementQueue)
        invariant Propagated(s0) ==> Sound(s1, grid.Cands(), {}, false)
        invariant changed <==> grid.Cands() != s1
      {
        if other != row {
          ghost var s2, r2, q2 := grid.Cands(), removedRookBox, q.elementQueue;
          ProgressTrans(s0, r0, q0, s1, r1, q1, s2, r2, q2);
          var step := XWingPartner(row, other, d, columns, q, s0, r0, q0);
          GuardedSteps(Propagated(s0), s1, r1, q1, s2, r2, q2, grid.Cands(), removedRookBox, q.elementQueue,
                       step.Err? && step.error == NoCandidatesLeft);
          if step.Err? {
            return step;
          }
          changed := changed || step.value;
        }
      }
      return Ok(changed);
    }

    /**
     * One row `other` of xWingRows: when d is counted twice among its
     * unsolved cells and the first two listed columns carry it there, d is
     * removed from those two columns in every other row. A list of fewer than
     * two columns is the source's IndexOutOfBoundsException when it gets to
     * the missing entry.
     */
    method XWingPartner(row: int, other: int, d: int, columns: seq<int>, q: QueueSet<int>,
                        ghost s0: seq<set<int>>, ghost r0: set<int>, ghost q0: seq<int>) returns (r: Result<bool>)
      requires Valid() && QueueOk(q) && IsIndex(row) && IsIndex(other) && other != row && IsDigit(d)
      requires Progress(s0, r0, q0, grid.Cands(), removedRookBox, q.elementQueue) && RecordedSolved(s0, r0)
      requires Frequency(s0, RowCoords(row), d, true) == 2
      requires forall i :: 0 <= i < |columns| ==> IsIndex(columns[i]) && d in s0[Coord(row, columns[i])]
      requires forall i, j :: 0 <= i < j < |columns| ==> columns[i] < columns[j]
      modifies this, grid.Repr, q
      ensures Valid() && QueueOk(q)
      ensures Progress(old(grid.Cands()), old(removedRookBox), old(q.elementQueue),
                       grid.Cands(), removedRookBox, q.elementQueue)
      ensures Propagated(s0) ==> Sound(old(grid.Cands()), grid.Cands(), {}, r.Err? && r.error == NoCandidatesLeft)
      ensures r.Ok? ==> (r.value <==> grid.Cands() != old(grid.Cands()))
      ensures r.Err? ==> r.error == IndexOutOfRange || r.error == NoCandidatesLeft
    {
      ghost var s1, r1, q1 := grid.Cands(), removedRookBox, q.elementQueue;
      ProgressRefl(s1, r1, q1);
      SoundRefl(s1);
      var frequencyTwo := grid.GetRowCands(other);
      if frequencyTwo[d] != 2 {
        return Ok(false);
      }
      if |columns| == 0 {
        return Err(IndexOutOfRange);
      }
      if d !in grid.GetCands(other, columns[0]) {
        return Ok(false);
      }
      if |columns| == 1 {
        return Err(IndexOutOfRange);
      }
      if d !in grid.GetCands(other, columns[1]) {
        return Ok(false);
      }
      ghost var targets := XWingTargets(row, other, columns[0], columns[1], d, 9);
      r := XWingRemove(row, other, columns[0], columns[1], d, q);
      if Propagated(s0) {
        PropagatedKept(s0, r0, q0, s1, r1, q1);
        forall sol | IsSolution(sol) && Consistent(sol, s1) ensures Excludes(sol, targets) {
          XWingSound(s0, s1, row, other, columns[0], columns[1], d, sol);
        }
        SoundDropAll(s1, grid.Cands(), targets, r.Err?);
      }
    }

    /**
     * The removal loop of xWingRows: d leaves columns c0 and c1, in that
     * order, of every row other than `row` and `other`, from the top down.
     */
    method XWingRemove(row: int, other: int, c0: int, c1: int, d: int, q: QueueSet<int>) returns (r: Result<bool>)
      requires Valid() && QueueOk(q) && IsIndex(c0) && IsIndex(c1)
      modifies this, grid.Repr, q
      ensures Valid() && QueueOk(q)
      ensures Progress(old(grid.Cands()), old(removedRookBox), old(q.elementQueue),
                       grid.Cands(), removedRookBox, q.elementQueue)
      ensures Sound(old(grid.Cands()), grid.Cands(), XWingTargets(row, other, c0, c1, d, 9), r.Err?)
      ensures r.Err? ==> r.error == NoCandidatesLeft
      ensures r.Ok? ==> forall r2 :: 0 <= r2 < 9 && r2 != row && r2 != other ==>
        d !in grid.Cands()[Coord(r2, c0)] && d !in grid.Cands()[Coord(r2, c1)]
      ensures r.Ok? ==> (r.value <==> grid.Cands() != old(grid.Cands()))
    {
      ghost var s0, r0, q0 := grid.Cands(), removedRookBox, q.elementQueue;
      ProgressRefl(s0, r0, q0);
      SoundRefl(s0);
      var changed := false;
      for r2 := 0 to 9
        invariant Valid() && QueueOk(q)
        invariant Progress(s0, r0, q0, grid.Cands(), removedRookBox, q.elementQueue)
        invariant Sound(s0, grid.Cands(), XWingTargets(row, other, c0, c1, d, r2), false)
        invariant forall r3 :: 0 <= r3 < r2 && r3 != row && r3 != other ==>
          d !in grid.Cands()[Coord(r3, c0)] && d !in grid.Cands()[Coord(r3, c1)]
        invariant changed <==> grid.Cands() != s0
      {
        var step := XWingRemoveStep(row, other, c0, c1, d, r2, q, s0, r0, q0, changed);
        if step.Err? {
          return step;
        }
        changed := step.value;
      }
      return Ok(changed);
    }

    /** One turn of the removal loop of xWingRows, for row r2. */
    method XWingRemoveStep(row: int, other: int, c0: int, c1: int, d: int, r2: int, q: QueueSet<int>,
                           ghost s0: seq<set<int>>, ghost r0: set<int>, ghost q0: seq<int>, changed0: bool)
      returns (r: Result<bool>)
      requires Valid() && QueueOk(q) && IsIndex(c0) && IsIndex(c1) && IsIndex(r2)
      requires Progress(s0, r0, q0, grid.Cands(), removedRookBox, q.elementQueue)
      requires Sound(s0, grid.Cands(), XWingTargets(row, other, c0, c1, d, r2), false)
      requires forall r3 :: 0 <= r3 < r2 && r3 != row && r3 != other ==>
        d !in grid.Cands()[Coord(r3, c0)] && d !in grid.Cands()[Coord(r3, c1)]
      requires changed0 <==> grid.Cands() != s0
      modifies this, grid.Repr, q
      ensures Valid() && QueueOk(q)
      ensures Progress(s0, r0, q0, grid.Cands(), removedRookBox, q.elementQueue)
      ensures r.Err? ==> r.error == NoCandidatesLeft
      ensures r.Err? ==> Sound(s0, grid.Cands(), XWingTargets(row, other, c0, c1, d, 9), true)
      ensures r.Ok? ==> Sound(s0, grid.Cands(), XWingTargets(row, other, c0, c1, d, r2 + 1), false)
      ensures r.Ok? ==> forall r3 :: 0 <= r3 < r2 + 1 && r3 != row && r3 != other ==>
        d !in grid.Cands()[Coord(r3, c0)] && d !in grid.Cands()[Coord(r3, c1)]
      ensures r.Ok? ==> (r.value <==> grid.Cands() != s0)
    {
      if r2 == other || r2 == row {
        XWingTargetsSkip(row, other, c0, c1, d, r2);
        return Ok(changed0);
      }
      ghost var s1, r1, q1 := grid.Cands(), removedRookBox, q.elementQueue;
      ghost var pair := {(Coord(r2, c0), d), (Coord(r2, c1), d)};
      var removed := XWingRemoveRow(r2, c0, c1, d, q);
      TargetsTrans(s0, r0, q0, s1, r1, q1, grid.Cands(), removedRookBox, q.elementQueue,
                   XWingTargets(row, other, c0, c1, d, r2), pair, removed.Err?);
      XWingTargetsStep(row, other, c0, c1, d, r2);
      if removed.Err? {
        XWingTargetsGrow(row, other, c0, c1, d, r2 + 1, 9);
        SoundWiden(s0, grid.Cands(), XWingTargets(row, other, c0, c1, d, r2 + 1),
                   XWingTargets(row, other, c0, c1, d, 9), true);
        return removed;
      }
      ChangedTrans(s0, s1, grid.Cands());
      r := Ok(changed0 || removed.value);
    }

    /** One row of the removal loop of xWingRows: d leaves (r2, c0), then (r2, c1). */
    method XWingRemoveRow(r2: int, c0: int, c1: int, d: int, q: QueueSet<int>) returns (r: Result<bool>)
      requires Valid() && QueueOk(q) && IsIndex(r2) && IsIndex(c0) && IsIndex(c1)
      modifies this, grid.Repr, q
      ensures Valid() && QueueOk(q)
      ensures Progress(old(grid.Cands()), old(removedRookBox), old(q.elementQueue),
                       grid.Cands(), removedRookBox, q.elementQueue)
      ensures Sound(old(grid.Cands()), grid.Cands(), {(Coord(r2, c0), d), (Coord(r2, c1), d)}, r.Err?)
      ensures r.Err? ==> r.error == NoCandidatesLeft
      ensures r.Ok? ==> d !in grid.Cands()[Coord(r2, c0)] && d !in grid.Cands()[Coord(r2, c1)]
      ensures r.Ok? ==> (r.value <==> grid.Cands() != old(grid.Cands()))
    {
      CoordBijection(r2, c0);
      CoordBijection(r2, c1);
      ghost var s0, r0, q0 := grid.Cands(), removedRookBox, q.elementQueue;
      ghost var pair := {(Coord(r2, c0), d), (Coord(r2, c1), d)};
      var first := RemoveAndCallNaked(Coord(r2, c0), d, q);
      if first.Err? {
        SoundWiden(s0, grid.Cands(), {(Coord(r2, c0), d)}, pair, true);
        return first;
      }
      ghost var s1, r1, q1 := grid.Cands(), removedRookBox, q.elementQueue;
      var second := RemoveAndCallNaked(Coord(r2, c1), d, q);
      TargetsTrans(s0, r0, q0, s1, r1, q1, grid.Cands(), removedRookBox, q.elementQueue,
                   {(Coord(r2, c0), d)}, {(Coord(r2, c1), d)}, second.Err?);
      assert {(Coord(r2, c0), d)} + {(Coord(r2, c1), d)} == pair;
      if second.Err? {
        return second;
      }
      return Ok(first.value || second.value);
    }

    /**
     * Solver.xYWing: tries every cell that (row, column) sees as the pivot of
     * an XY-wing, in the order of the seen list.
     */
    method XYWing(row: int, column: int, q: QueueSet<int>) returns (r: Result<bool>)
      requires Valid() && QueueOk(q) && IsIndex(row) && IsIndex(column)
      modifies this, grid.Repr, q
      ensures Valid() && QueueOk(q)
      ensures Progress(old(grid.Cands()), old(removedRookBox), old(q.elementQueue),
                       grid.Cands(), removedRookBox, q.elementQueue)
      ensures AllQueued(old(grid.Cands()), grid.Cands(), q.elementQueue)
      ensures Sound(old(grid.Cands()), grid.Cands(), {}, r.Err?)
      ensures r.Err? ==> r.error == NoCandidatesLeft
      ensures r.Ok? ==> (r.value <==> grid.Cands() != old(grid.Cands()))
    {
      ghost var s0, r0, q0 := grid.Cands(), removedRookBox, q.elementQueue;
      ProgressRefl(s0, r0, q0);
      SoundRefl(s0);
      var seen := SeenCoords(row, column);
      var changed := false;
      for i := 0 to |seen|
        invariant Valid() && QueueOk(q)
        invariant Progress(s0, r0, q0, grid.Cands(), removedRookBox, q.elementQueue)
        invariant AllQueued(s0, grid.Cands(), q.elementQueue)
        invariant Sound(s0, grid.Cands(), {}, false)
        invariant changed <==> grid.Cands() != s0
      {
        assert seen[i] in seen;
        CoordInverse(seen[i]);
        ghost var s1, r1, q1 := grid.Cands(), removedRookBox, q.elementQueue;
        var step := XYWingOneCell(RowOf(seen[i]), ColumnOf(seen[i]), q);
        RemovalsTrans(s0, r0, q0, s1, r1, q1, grid.Cands(), removedRookBox, q.elementQueue, step.Err?);
        if step.Err? {
          return step;
        }
        changed := changed || step.value;
      }
      return Ok(changed);
    }

    /**
     * Solver.xYWingOneCell: when the pivot (row, column) has two candidates
     * a < b, the possible pincers are the two-candidate cells it sees that
     * carry exactly one of a and b; a digit c other than a and b that two of
     * them carry, one holding a and the other b, makes an XY-wing, and c
     * leaves every cell that sees both pincers. The rule stops after the
     * first digit whose removals changed the board. The list of cells seen
     * by both pincers is built by coordinate (see XYWings.EqualIntersection
     * for the list the source builds).
     */
    method XYWingOneCell(row: int, column: int, q: QueueSet<int>) returns (r: Result<bool>)
      requires Valid() && QueueOk(q) && IsIndex(row) && IsIndex(column)
      modifies this, grid.Repr, q
      ensures Valid() && QueueOk(q)
      ensures Progress(old(grid.Cands()), old(removedRookBox), old(q.elementQueue),
                       grid.Cands(), removedRookBox, q.elementQueue)
      ensures AllQueued(old(grid.Cands()), grid.Cands(), q.elementQueue)
      ensures Sound(old(grid.Cands()), grid.Cands(), {}, r.Err?)
      ensures r.Err? ==> r.error == NoCandidatesLeft
      ensures r.Ok? ==> (r.value <==> grid.Cands() != old(grid.Cands()))
    {
      var pivot := grid.GetCands(row, column);
      if |pivot| != 2 {
        ProgressRefl(grid.Cands(), removedRookBox, q.elementQueue);
        SoundRefl(grid.Cands());
        return Ok(false);
      }
      PivotPair(pivot);
      var a := LeastFrom(pivot, 1);
      var b := LeastFrom(pivot, a + 1);
      r := XYWingPivot(row, column, a, b, q);
    }

    /** The part of xYWingOneCell after the pivot's two candidates a and b are taken. */
    method XYWingPivot(row: int, column: int, a: int, b: int, q: QueueSet<int>) returns (r: Result<bool>)
      requires Valid() && QueueOk(q) && IsIndex(row) && IsIndex(column)
      requires grid.Cands()[Coord(row, column)] == {a, b}
      modifies this, grid.Repr, q
      ensures Valid() && QueueOk(q)
      ensures Progress(old(grid.Cands()), old(removedRookBox), old(q.elementQueue),
                       grid.Cands(), removedRookBox, q.elementQueue)
      ensures AllQueued(old(grid.Cands()), grid.Cands(), q.elementQueue)
      ensures Sound(old(grid.Cands()), grid.Cands(), {}, r.Err?)
      ensures r.Err? ==> r.error == NoCandidatesLeft
      ensures r.Ok? ==> (r.value <==> grid.Cands() != old(grid.Cands()))
    {
      var k := Coord(row, column);
      CoordBijection(row, column);
      var possible := PincersOf(row, column, a, b);
      var frequency := grid.GetCandsMapping(possible);
      r := XYWingDigits(k, a, b, possible, frequency, q);
    }

    /**
     * The possible pincers of xYWingOneCell: the unsolved two-candidate cells
     * that (row, column) sees which carry exactly one of a and b.
     */
    method PincersOf(row: int, column: int, a: int, b: int) returns (possible: seq<int>)
      requires Valid() && IsIndex(row) && IsIndex(column)
      ensures AllCoords(possible)
      ensures forall x :: x in possible ==> Sees(Coord(row, column), x) && !SolvedAt(grid.Cands(), x)
      ensures forall x :: x in possible ==> |grid.Cands()[x]| == 2 && (a in grid.Cands()[x] <==> b !in grid.Cands()[x])
    {
      ghost var s := grid.Cands();
      var seen := SeenCoords(row, column);
      assert AllCoords(seen) by {
        forall i | 0 <= i < |seen| ensures IsCoord(seen[i]) {
          assert seen[i] in seen;
        }
      }
      var kept := KeepCandRange(seen, 2, 2);
      KeepRangeMembers(s, seen, 2, 2);
      possible := PossiblePincers(kept, a, b);
      forall x | x in possible
        ensures Sees(Coord(row, column), x) && !SolvedAt(s, x) && |s[x]| == 2 && (a in s[x] <==> b !in s[x])
      {
        assert x in kept;
        assert x in seen;
      }
    }

    /**
     * The loop of xYWingOneCell over the digits c other than a and b counted
     * twice among the possible pincers, up to the first one whose removals
     * change the board.
     */
    method XYWingDigits(k: int, a: int, b: int, possible: seq<int>, frequency: map<int, int>, q: QueueSet<int>)
      returns (r: Result<bool>)
      requires Valid() && QueueOk(q) && IsCoord(k) && AllCoords(possible)
      requires grid.Cands()[k] == {a, b}
      requires forall x :: x in possible ==> Sees(k, x) && !SolvedAt(grid.Cands(), x)
      requires forall x :: x in possible ==> |grid.Cands()[x]| == 2 && (a in grid.Cands()[x] <==> b !in grid.Cands()[x])
      requires frequency.Keys == Digits
      requires forall d :: d in Digits ==> frequency[d] == Frequency(grid.Cands(), possible, d, true)
      modifies this, grid.Repr, q
      ensures Valid() && QueueOk(q)
      ensures Progress(old(grid.Cands()), old(removedRookBox), old(q.elementQueue),
                       grid.Cands(), removedRookBox, q.elementQueue)
      ensures AllQueued(old(grid.Cands()), grid.Cands(), q.elementQueue)
      ensures Sound(old(grid.Cands()), grid.Cands(), {}, r.Err?)
      ensures r.Err? ==> r.error == NoCandidatesLeft
      ensures r.Ok? ==> (r.value <==> grid.Cands() != old(grid.Cands()))
    {
      ghost var s0, r0, q0 := grid.Cands(), removedRookBox, q.elementQueue;
      ProgressRefl(s0, r0, q0);
      SoundRefl(s0);
      for c := 1 to 10
        invariant Valid() && QueueOk(q)
        invariant Progress(s0, r0, q0, grid.Cands(), removedRookBox, q.elementQueue)
        invariant grid.Cands() == s0
      {
        if c != a && c != b && frequency[c] == 2 {
          ghost var r1, q1 := removedRookBox, q.elementQueue;
          var step := XYWingDigit(k, a, b, possible, c, q);
          ProgressTrans(s0, r0, q0, s0, r1, q1, grid.Cands(), removedRookBox, q.elementQueue);
          if step.Err? || step.value {
            return step;
          }
        }
      }
      return Ok(false);
    }

    /** The removeIf of xYWingOneCell: the cells of kept that carry exactly one of a and b. */
    method PossiblePincers(kept: seq<int>, a: int, b: int) returns (possible: seq<int>)
      requires Valid() && AllCoords(kept)
      ensures possible == OneOf(grid.Cands(), kept, a, b)
    {
      possible := [];
      for i := 0 to |kept|
        invariant possible == OneOf(grid.Cands(), kept[..i], a, b)
      {
        assert kept[..i + 1][..i] == kept[..i];
        var c := grid.CandsAt(kept[i]);
        if a in c <==> b !in c {
          possible := possible + [kept[i]];
        }
      }
      assert kept[..|kept|] == kept;
    }

    /**
     * One digit c of xYWingOneCell: the two possible pincers carrying c; when
     * they hold a and b one each, c leaves every cell that sees both.
     */
    method XYWingDigit(k: int, a: int, b: int, possible: seq<int>, c: int, q: QueueSet<int>) returns (r: Result<bool>)
      requires Valid() && QueueOk(q) && IsCoord(k) && AllCoords(possible)
      requires grid.Cands()[k] == {a, b} && c != a && c != b
      requires forall x :: x in possible ==> Sees(k, x) && !SolvedAt(grid.Cands(), x)
      requires forall x :: x in possible ==> |grid.Cands()[x]| == 2 && (a in grid.Cands()[x] <==> b !in grid.Cands()[x])
      requires Frequency(grid.Cands(), possible, c, true) == 2
      modifies this, grid.Repr, q
      ensures Valid() && QueueOk(q)
      ensures Progress(old(grid.Cands()), old(removedRookBox), old(q.elementQueue),
                       grid.Cands(), removedRookBox, q.elementQueue)
      ensures AllQueued(old(grid.Cands()), grid.Cands(), q.elementQueue)
      ensures Sound(old(grid.Cands()), grid.Cands(), {}, r.Err?)
      ensures r.Err? ==> r.error == NoCandidatesLeft
      ensures r.Ok? ==> (r.value <==> grid.Cands() != old(grid.Cands()))
    {
      ghost var s0 := grid.Cands();
      var pincers := PincerCells(possible, c);
      var p1, p2 := pincers[0], pincers[1];
      assert p1 in pincers && p2 in pincers;
      var one, two := grid.CandsAt(p1), grid.CandsAt(p2);
      if (a in one && a in two) || (b in one && b in two) {
        ProgressRefl(s0, removedRookBox, q.elementQueue);
        SoundRefl(s0);
        return Ok(false);
      }
      ghost var x, y := if a in one then a else b, if a in one then b else a;
      TwoCands(one, x, c);
      TwoCands(two, y, c);
      assert s0[k] == {x, y};
      assert Wing(s0, k, p1, p2, x, y, c);
      var shared := Without(Intersection(SeenCoords(RowOf(p1), ColumnOf(p1)),
                                         SeenCoords(RowOf(p2), ColumnOf(p2))), pincers);
      r := XYWingRemove(k, p1, p2, x, y, c, pincers, shared, q);
    }

    /**
     * The loop of xYWingOneCell that lists, in order, the possible pincers
     * carrying c: as many as c is counted among them.
     */
    method PincerCells(possible: seq<int>, c: int) returns (pincers: seq<int>)
      requires Valid() && AllCoords(possible)
      requires forall x :: x in possible ==> !SolvedAt(grid.Cands(), x)
      ensures AllCoords(pincers)
      ensures forall x :: x in pincers <==> x in possible && c in grid.Cands()[x]
      ensures |pincers| == Frequency(grid.Cands(), possible, c, true)
    {
      pincers := [];
      for i := 0 to |possible|
        invariant AllCoords(pincers)
        invariant forall x :: x in pincers <==> x in possible[..i] && c in grid.Cands()[x]
        invariant |pincers| == Frequency(grid.Cands(), possible[..i], c, true)
      {
        assert possible[..i + 1][..i] == possible[..i];
        assert possible[..i + 1] == possible[..i] + [possible[i]];
        assert possible[i] in possible;
        if c in grid.CandsAt(possible[i]) {
          pincers := pincers + [possible[i]];
        }
      }
      assert possible[..|possible|] == possible;
    }

    /** The removal loop of xYWingOneCell: c leaves every cell of shared, in order. */
    method XYWingRemove(ghost k: int, p1: int, p2: int, ghost x: int, ghost y: int, c: int, pincers: seq<int>, shared: seq<int>,
                        q: QueueSet<int>) returns (r: Result<bool>)
      requires Valid() && QueueOk(q) && Wing(grid.Cands(), k, p1, p2, x, y, c)
      requires shared == Without(Intersection(SeenCoords(RowOf(p1), ColumnOf(p1)),
                                              SeenCoords(RowOf(p2), ColumnOf(p2))), pincers)
      modifies this, grid.Repr, q
      ensures Valid() && QueueOk(q)
      ensures Progress(old(grid.Cands()), old(removedRookBox), old(q.elementQueue),
                       grid.Cands(), removedRookBox, q.elementQueue)
      ensures AllQueued(old(grid.Cands()), grid.Cands(), q.elementQueue)
      ensures Sound(old(grid.Cands()), grid.Cands(), {}, r.Err?)
      ensures r.Err? ==> r.error == NoCandidatesLeft
      ensures r.Ok? ==> (r.value <==> grid.Cands() != old(grid.Cands()))
    {
      ghost var s0, r0, q0 := grid.Cands(), removedRookBox, q.elementQueue;
      ProgressRefl(s0, r0, q0);
      SoundRefl(s0);
      var changed := false;
      for i := 0 to |shared|
        invariant Valid() && QueueOk(q)
        invariant Progress(s0, r0, q0, grid.Cands(), removedRookBox, q.elementQueue)
        invariant AllQueued(s0, grid.Cands(), q.elementQueue)
        invariant Sound(s0, grid.Cands(), {}, false)
        invariant Wing(grid.Cands(), k, p1, p2, x, y, c)
        invariant changed <==> grid.Cands() != s0
      {
        var t := shared[i];
        SharedPeersSee(p1, p2, pincers, t);
        ghost var s1, r1, q1 := grid.Cands(), removedRookBox, q.elementQueue;
        var step := RemoveAndCallNaked(t, c, q);
        WingRemovalSound(s1, grid.Cands(), k, p1, p2, x, y, c, t, step.Err?);
        RemovalsTrans(s0, r0, q0, s1, r1, q1, grid.Cands(), removedRookBox, q.elementQueue, step.Err?);
        if step.Err? {
          return step;
        }
        WingShrinks(s1, grid.Cands(), k, p1, p2, x, y, c);
        changed := changed || step.value;
      }
      return Ok(changed);
    }
  }
}
