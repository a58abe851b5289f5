/**
 * What every deduction rule of the solver (src/Main/Solver.java) promises
 * about the board, stated on board values so that the rules can chain their
 * guarantees. Boards are the `Grids.Grid.Cands()` sequences.
 *
 * Two pieces of solver state take part besides the board: the coordinates
 * whose value has been eliminated from their peers (`removedRookBox`) and the
 * work queue of changed coordinates.
 */
module Propagation {
  import opened Geometry
  import opened Grids
  import opened Solutions

  const Coords: set<int> := set k | 0 <= k < 81

  /**
   * Cell z is solved and every cell it sees is either solved to the same
   * value or no longer carries it: the naked-single elimination of z is done.
   */
  ghost predicate CleanAt(s: seq<set<int>>, z: int)
    requires WellFormed(s)
  {
    IsCoord(z) && SolvedAt(s, z) &&
    forall p :: 0 <= p < 81 && Sees(z, p) ==> s[p] == s[z] || s[z] !! s[p]
  }

  /** Every recorded coordinate is a solved cell. */
  ghost predicate RecordedSolved(s: seq<set<int>>, r: set<int>)
    requires WellFormed(s)
  {
    forall z :: z in r ==> IsCoord(z) && SolvedAt(s, z)
  }

  /** Every cell of cs is solved to v or no longer carries v. */
  ghost predicate Eliminated(s: seq<set<int>>, cs: seq<int>, v: int)
    requires WellFormed(s) && AllCoords(cs)
  {
    forall i :: 0 <= i < |cs| ==> s[cs[i]] == {v} || v !in s[cs[i]]
  }

  /** The queue only grows at its tail, and only by coordinates whose cell changed. */
  ghost predicate QueueGrows(s0: seq<set<int>>, q0: seq<int>, s1: seq<set<int>>, q1: seq<int>)
    requires |s0| == 81 && |s1| == 81
  {
    |q0| <= |q1| && q1[..|q0|] == q0 &&
    forall i :: |q0| <= i < |q1| ==> IsCoord(q1[i]) && s1[q1[i]] != s0[q1[i]]
  }

  /** Every cell that changed is queued or has become solved. */
  /** A run that changed no cell added nothing to the queue. */
  lemma {:induction false} QueueKept(s0: seq<set<int>>, q0: seq<int>, s1: seq<set<int>>, q1: seq<int>)
    requires |s0| == 81 && |s1| == 81 && QueueGrows(s0, q0, s1, q1)
    ensures s1 == s0 ==> q1 == q0
  {
    if |q1| > |q0| {
      assert s1[q1[|q0|]] != s0[q1[|q0|]];
    }
    assert q1[..|q0|] == q0;
  }

  ghost predicate ChangesQueued(s0: seq<set<int>>, s1: seq<set<int>>, q1: seq<int>)
    requires |s0| == 81 && |s1| == 81
  {
    forall k :: 0 <= k < 81 && s1[k] != s0[k] ==> k in q1 || SolvedAt(s1, k)
  }

  /** Every cell that changed is queued (the rules that only remove candidates). */
  ghost predicate AllQueued(s0: seq<set<int>>, s1: seq<set<int>>, q1: seq<int>)
    requires |s0| == 81 && |s1| == 81
  {
    forall k :: 0 <= k < 81 && s1[k] != s0[k] ==> k in q1
  }

  /** Every cell that became solved has had its value eliminated from its peers. */
  ghost predicate SolvedRecorded(s0: seq<set<int>>, s1: seq<set<int>>, r1: set<int>)
    requires |s0| == 81 && |s1| == 81
  {
    forall k :: 0 <= k < 81 && SolvedAt(s1, k) && !SolvedAt(s0, k) ==> k in r1
  }

  /** A recorded cell that was clean, or is newly recorded, is clean afterwards. */
  ghost predicate CleanKept(s0: seq<set<int>>, r0: set<int>, s1: seq<set<int>>, r1: set<int>)
    requires WellFormed(s0) && WellFormed(s1)
  {
    forall z :: z in r1 && (z !in r0 || CleanAt(s0, z)) ==> CleanAt(s1, z)
  }

  /**
   * The guarantee every rule gives about the solver state: candidates only
   * shrink, recorded cells stay recorded, the queue grows by changed cells,
   * and the naked-single bookkeeping stays truthful.
   */
  ghost predicate Progress(s0: seq<set<int>>, r0: set<int>, q0: seq<int>,
                           s1: seq<set<int>>, r1: set<int>, q1: seq<int>)
  {
    WellFormed(s0) && WellFormed(s1) && Shrinks(s0, s1) && r0 <= r1 &&
    QueueGrows(s0, q0, s1, q1) && ChangesQueued(s0, s1, q1) &&
    SolvedRecorded(s0, s1, r1) && CleanKept(s0, r0, s1, r1)
  }

  /*** Lemmas ***/

  /** A nonempty subset of a singleton is that singleton. */
  lemma SingletonShrinks(a: set<int>, b: set<int>)
    requires |b| == 1 && a <= b && a != {}
    ensures a == b
  {
    StrictSubsetSize(a, b);
  }

  /** Shrinking keeps solved cells as they are. */
  lemma {:induction false} SolvedKept(s: seq<set<int>>, t: seq<set<int>>, k: int)
    requires WellFormed(s) && WellFormed(t) && Shrinks(s, t) && IsCoord(k) && SolvedAt(s, k)
    ensures t[k] == s[k] && SolvedAt(t, k)
  {
    SingletonShrinks(t[k], s[k]);
  }

  /** A cell solved to v or without v stays so when the board shrinks. */
  lemma {:induction false} EliminatedCellKept(s: seq<set<int>>, t: seq<set<int>>, x: int, v: int)
    requires WellFormed(s) && WellFormed(t) && Shrinks(s, t) && IsCoord(x)
    requires s[x] == {v} || v !in s[x]
    ensures t[x] == {v} || v !in t[x]
  {
    if s[x] == {v} {
      assert |s[x]| == 1;
      SolvedKept(s, t, x);
    }
  }

  lemma {:induction false} EliminatedKept(s: seq<set<int>>, t: seq<set<int>>, cs: seq<int>, v: int)
    requires WellFormed(s) && WellFormed(t) && Shrinks(s, t) && AllCoords(cs)
    requires Eliminated(s, cs, v)
    ensures Eliminated(t, cs, v)
  {
    forall i | 0 <= i < |cs| ensures t[cs[i]] == {v} || v !in t[cs[i]] {
      EliminatedCellKept(s, t, cs[i], v);
    }
  }

  /** Cleanliness survives shrinking. */
  lemma {:induction false} CleanShrinks(s: seq<set<int>>, t: seq<set<int>>, z: int)
    requires WellFormed(s) && WellFormed(t) && Shrinks(s, t) && CleanAt(s, z)
    ensures CleanAt(t, z)
  {
    SolvedKept(s, t, z);
    forall p | 0 <= p < 81 && Sees(z, p) ensures t[p] == t[z] || t[z] !! t[p] {
      if s[p] == s[z] {
        SingletonShrinks(t[p], s[z]);
      }
    }
  }

  /** Progress composes: the rules can be run one after another. */
  lemma {:induction false} ProgressTrans(s0: seq<set<int>>, r0: set<int>, q0: seq<int>,
                                         s1: seq<set<int>>, r1: set<int>, q1: seq<int>,
                                         s2: seq<set<int>>, r2: set<int>, q2: seq<int>)
    requires Progress(s0, r0, q0, s1, r1, q1) && Progress(s1, r1, q1, s2, r2, q2)
    ensures Progress(s0, r0, q0, s2, r2, q2)
  {
    assert q2[..|q0|] == q1[..|q0|] by {
      assert q2[..|q1|][..|q0|] == q2[..|q0|];
    }
    forall k | 0 <= k < 81 && s2[k] != s0[k] ensures k in q2 || SolvedAt(s2, k) {
      if s1[k] != s0[k] {
        if k in q1 {
          var i :| 0 <= i < |q1| && q1[i] == k;
          assert q2[..|q1|][i] == k;
        } else {
          SolvedKept(s1, s2, k);
        }
      }
    }
    forall k | 0 <= k < 81 && SolvedAt(s2, k) && !SolvedAt(s0, k) ensures k in r2 {
      if SolvedAt(s1, k) {
        assert k in r1;
      }
    }
    forall z | z in r2 && (z !in r0 || CleanAt(s0, z)) ensures CleanAt(s2, z) {
      if z in r1 {
        assert CleanAt(s1, z);
      }
    }
  }

  lemma ProgressRefl(s: seq<set<int>>, r: set<int>, q: seq<int>)
    requires WellFormed(s)
    ensures Progress(s, r, q, s, r, q)
  {
    assert q[..|q|] == q;
  }

  /** With shrinking, a board differs from the start iff one of the two legs changed it. */
  lemma ChangedTrans(a: seq<set<int>>, b: seq<set<int>>, c: seq<set<int>>)
    requires Shrinks(a, b) && Shrinks(b, c)
    ensures c != a <==> b != a || c != b
  {
    ShrinkTotalCands(a, b);
    ShrinkTotalCands(b, c);
  }

  /** A clean set of recorded cells stays clean under Progress. */
  lemma {:induction false} AllCleanKept(s0: seq<set<int>>, r0: set<int>, q0: seq<int>,
                                        s1: seq<set<int>>, r1: set<int>, q1: seq<int>)
    requires Progress(s0, r0, q0, s1, r1, q1)
    requires forall z :: z in r0 ==> CleanAt(s0, z)
    ensures forall z :: z in r1 ==> CleanAt(s1, z)
  {
  }

  lemma {:induction false} AllQueuedTrans(s0: seq<set<int>>, q0: seq<int>, s1: seq<set<int>>, q1: seq<int>,
                                          s2: seq<set<int>>, q2: seq<int>)
    requires |s0| == 81 && |s1| == 81 && |s2| == 81
    requires |q1| <= |q2| && q2[..|q1|] == q1
    requires AllQueued(s0, s1, q1) && AllQueued(s1, s2, q2)
    ensures AllQueued(s0, s2, q2)
  {
    forall k | 0 <= k < 81 && s2[k] != s0[k] ensures k in q2 {
      if s1[k] != s0[k] {
        var i :| 0 <= i < |q1| && q1[i] == k;
        assert q2[..|q1|][i] == k;
      }
    }
  }

  /** Two runs of candidate removals, one after the other, form one. */
  lemma {:induction false} RemovalsTrans(s0: seq<set<int>>, r0: set<int>, q0: seq<int>,
                                         s1: seq<set<int>>, r1: set<int>, q1: seq<int>,
                                         s2: seq<set<int>>, r2: set<int>, q2: seq<int>, failed: bool)
    requires Progress(s0, r0, q0, s1, r1, q1) && AllQueued(s0, s1, q1) && Sound(s0, s1, {}, false)
    requires Progress(s1, r1, q1, s2, r2, q2) && AllQueued(s1, s2, q2) && Sound(s1, s2, {}, failed)
    ensures Progress(s0, r0, q0, s2, r2, q2) && AllQueued(s0, s2, q2) && Sound(s0, s2, {}, failed)
    ensures s2 != s0 <==> s1 != s0 || s2 != s1
  {
    ProgressTrans(s0, r0, q0, s1, r1, q1, s2, r2, q2);
    AllQueuedTrans(s0, q0, s1, q1, s2, q2);
    SoundTrans(s0, s1, s2, {}, {}, failed);
    ChangedTrans(s0, s1, s2);
  }

  /**
   * One removal at k (queued) followed by the naked-single cascade it triggers
   * keeps the solver's guarantees.
   */
  lemma {:induction false} RemovalThenCascade(s0: seq<set<int>>, r0: set<int>, q0: seq<int>,
                                              s1: seq<set<int>>, q1: seq<int>,
                                              s2: seq<set<int>>, r2: set<int>, q2: seq<int>, k: int)
    requires WellFormed(s0) && WellFormed(s1) && IsCoord(k) && Shrinks(s0, s1)
    requires s1[k] != s0[k] && forall x :: 0 <= x < 81 && x != k ==> s1[x] == s0[x]
    requires q1 == q0 + [k] || (q1 == q0 && k in q0)
    requires Progress(s1, r0, q1, s2, r2, q2) && AllQueued(s1, s2, q2)
    requires SolvedAt(s1, k) ==> k in r2
    ensures Progress(s0, r0, q0, s2, r2, q2) && AllQueued(s0, s2, q2)
  {
    assert q2[..|q0|] == q0 by {
      assert q2[..|q1|][..|q0|] == q2[..|q0|];
    }
    assert k in q2 by {
      if q1 == q0 + [k] {
        assert q2[..|q1|][|q0|] == k;
      } else {
        var i :| 0 <= i < |q0| && q0[i] == k;
        assert q2[..|q1|][i] == k;
      }
    }
    forall i | |q0| <= i < |q2| ensures IsCoord(q2[i]) && s2[q2[i]] != s0[q2[i]] {
      if i < |q1| {
        assert q2[i] == q2[..|q1|][i] == k;
        assert s2[k] <= s1[k];
      } else {
        var x := q2[i];
        if s2[x] == s0[x] {
          assert s2[x] <= s1[x] <= s0[x];
        }
      }
    }
    forall x | 0 <= x < 81 && s2[x] != s0[x] ensures x in q2 {
      if x != k {
        assert s1[x] == s0[x];
      }
    }
    forall z | z in r2 && (z !in r0 || CleanAt(s0, z)) ensures CleanAt(s2, z) {
      if z in r0 {
        CleanShrinks(s0, s1, z);
      }
    }
  }

  /**
   * A cell recorded before its elimination ran counts as newly recorded once
   * it is clean: the bookkeeping of nakedSingle.
   */
  lemma {:induction false} RecordedThenCleaned(s0: seq<set<int>>, r0: set<int>, q0: seq<int>,
                                               s1: seq<set<int>>, r1: set<int>, q1: seq<int>, k: int)
    requires Progress(s0, r0 + {k}, q0, s1, r1, q1) && CleanAt(s1, k)
    ensures Progress(s0, r0, q0, s1, r1, q1)
  {
  }

  /** The three groups through a cell hold it and the cells it sees. */
  lemma {:induction false} GroupsSee(row: int, column: int)
    requires IsIndex(row) && IsIndex(column)
    ensures forall i :: 0 <= i < 9 ==>
      (RowCoords(row)[i] == Coord(row, column) || Sees(RowCoords(row)[i], Coord(row, column))) &&
      (ColumnCoords(column)[i] == Coord(row, column) || Sees(ColumnCoords(column)[i], Coord(row, column))) &&
      (BoxCoords(row, column)[i] == Coord(row, column) || Sees(BoxCoords(row, column)[i], Coord(row, column)))
  {
    forall i | 0 <= i < 9
      ensures RowCoords(row)[i] == Coord(row, column) || Sees(RowCoords(row)[i], Coord(row, column))
      ensures ColumnCoords(column)[i] == Coord(row, column) || Sees(ColumnCoords(column)[i], Coord(row, column))
      ensures BoxCoords(row, column)[i] == Coord(row, column) || Sees(BoxCoords(row, column)[i], Coord(row, column))
    {
      GroupSeesAt(row, column, i);
    }
  }

  lemma {:induction false} GroupSeesAt(row: int, column: int, i: int)
    requires IsIndex(row) && IsIndex(column) && 0 <= i < 9
    ensures RowCoords(row)[i] == Coord(row, column) || Sees(RowCoords(row)[i], Coord(row, column))
    ensures ColumnCoords(column)[i] == Coord(row, column) || Sees(ColumnCoords(column)[i], Coord(row, column))
    ensures BoxCoords(row, column)[i] == Coord(row, column) || Sees(BoxCoords(row, column)[i], Coord(row, column))
  {
    CoordBijection(row, column);
    CoordBijection(row, i);
    CoordBijection(i, column);
    BoxCoordsSound(row, column, i);
  }

  /** A solved cell whose value is gone from its row, column and box is clean. */
  lemma {:induction false} CleanFromGroups(s: seq<set<int>>, row: int, column: int, v: int)
    requires WellFormed(s) && IsIndex(row) && IsIndex(column)
    requires s[Coord(row, column)] == {v}
    requires Eliminated(s, RowCoords(row), v) && Eliminated(s, ColumnCoords(column), v)
    requires Eliminated(s, BoxCoords(row, column), v)
    ensures CleanAt(s, Coord(row, column))
  {
    var k := Coord(row, column);
    CoordBijection(row, column);
    forall p | 0 <= p < 81 && Sees(k, p) ensures s[p] == s[k] || s[k] !! s[p] {
      PeerGroupsMembers(k, p);
      assert p in RowCoords(row) || p in ColumnCoords(column) || p in BoxCoords(row, column);
    }
  }

  /** The groups through k hold k and the cells k sees. */
  lemma {:induction false} PeerGroupsSee(k: int)
    requires IsCoord(k)
    ensures AllCoords(PeerGroups(k))
    ensures forall i :: 0 <= i < 27 ==> PeerGroups(k)[i] == k || Sees(PeerGroups(k)[i], k)
  {
    forall i | 0 <= i < 27 ensures IsCoord(PeerGroups(k)[i]) && (PeerGroups(k)[i] == k || Sees(PeerGroups(k)[i], k)) {
      PeerGroupsMembers(k, PeerGroups(k)[i]);
    }
  }

  /** A solved cell whose value is gone from its row, column and box is clean. */
  lemma {:induction false} CleanFromPeerGroups(s: seq<set<int>>, k: int, v: int)
    requires WellFormed(s) && IsCoord(k) && AllCoords(PeerGroups(k))
    requires s[k] == {v} && Eliminated(s, PeerGroups(k), v)
    ensures CleanAt(s, k)
  {
    forall p | 0 <= p < 81 && Sees(k, p) ensures s[p] == s[k] || s[k] !! s[p] {
      PeerGroupsMembers(k, p);
      var i :| 0 <= i < 27 && PeerGroups(k)[i] == p;
    }
  }

  lemma {:induction false} RecordedSolvedKept(s: seq<set<int>>, t: seq<set<int>>, r: set<int>)
    requires WellFormed(s) && WellFormed(t) && Shrinks(s, t) && RecordedSolved(s, r)
    ensures RecordedSolved(t, r)
  {
    forall z | z in r ensures SolvedAt(t, z) {
      SolvedKept(s, t, z);
    }
  }

  /** Removing a candidate of cell k: only k changes, and by exactly that digit. */
  lemma {:induction false} RemovalFacts(s0: seq<set<int>>, s1: seq<set<int>>, k: int, val: int)
    requires WellFormed(s0) && WellFormed(s1) && IsCoord(k) && val in s0[k]
    requires s1 == s0[k := s0[k] - {val}]
    ensures Shrinks(s0, s1) && s1 != s0 && TotalCands(s1) < TotalCands(s0)
    ensures forall x :: 0 <= x < 81 && x != k ==> s1[x] == s0[x]
    ensures Sound(s0, s1, {(k, val)}, false)
    ensures val !in s1[k]
  {
    assert s1[k] != s0[k];
    ShrinkTotalCands(s0, s1);
  }

  /**
   * The end of removeAndCallNaked: one removal at k, k queued, then the
   * cascade (if any) run from the new state.
   */
  lemma {:induction false} RemovalThenCascadeEnd(s0: seq<set<int>>, r0: set<int>, q0: seq<int>,
                                                 s1: seq<set<int>>, q1: seq<int>,
                                                 s2: seq<set<int>>, r2: set<int>, q2: seq<int>, k: int, val: int)
    requires WellFormed(s0) && WellFormed(s1) && IsCoord(k) && val in s0[k]
    requires s1 == s0[k := s0[k] - {val}]
    requires q1 == q0 + [k] || (q1 == q0 && k in q0)
    requires Progress(s1, r0, q1, s2, r2, q2) && AllQueued(s1, s2, q2) && Sound(s1, s2, {}, false)
    requires SolvedAt(s1, k) ==> k in r2
    ensures Progress(s0, r0, q0, s2, r2, q2) && AllQueued(s0, s2, q2)
    ensures Sound(s0, s2, {(k, val)}, false)
    ensures s2 != s0 && val !in s2[k]
  {
    RemovalFacts(s0, s1, k, val);
    RemovalThenCascade(s0, r0, q0, s1, q1, s2, r2, q2, k);
    SoundTrans(s0, s1, s2, {(k, val)}, {}, false);
    ChangedTrans(s0, s1, s2);
    assert s2[k] <= s1[k];
  }

  /** One step of removeFromItr: val removed from the unsolved cell x, which sees the solved cell z. */
  lemma {:induction false} RemoveFromItrStep(s0: seq<set<int>>, r0: set<int>, q0: seq<int>,
                                             s1: seq<set<int>>, r1: set<int>, q1: seq<int>,
                                             s2: seq<set<int>>, r2: set<int>, q2: seq<int>,
                                             done: seq<int>, x: int, val: int, z: int)
    requires IsCoord(x) && IsCoord(z) && x != z && Sees(x, z) && AllCoords(done)
    requires Progress(s0, r0, q0, s1, r1, q1) && AllQueued(s0, s1, q1) && Sound(s0, s1, {}, false)
    requires Progress(s1, r1, q1, s2, r2, q2) && AllQueued(s1, s2, q2) && Sound(s1, s2, {(x, val)}, false)
    requires s1[z] == {val} && Eliminated(s1, done, val) && val !in s2[x]
    ensures Progress(s0, r0, q0, s2, r2, q2) && AllQueued(s0, s2, q2) && Sound(s0, s2, {}, false)
    ensures s2[z] == {val} && Eliminated(s2, done + [x], val)
    ensures s2 != s0 <==> s1 != s0 || s2 != s1
  {
    ProgressTrans(s0, r0, q0, s1, r1, q1, s2, r2, q2);
    AllQueuedTrans(s0, q0, s1, q1, s2, q2);
    assert |s1[z]| == 1;
    SolvedKept(s1, s2, z);
    assert {} + {(x, val)} == {(x, val)};
    SoundDrop(s1, s2, {}, x, val, z, false);
    SoundTrans(s0, s1, s2, {}, {}, false);
    EliminatedKept(s1, s2, done, val);
    ChangedTrans(s0, s1, s2);
  }

  /** The candidates a solve of cell x to d removes. */
  function SolveTargets(x: int, d: int): set<(int, int)> {
    set e | 1 <= e <= 9 && e != d :: (x, e)
  }

  /** Solving cell k to one of its candidates: only k changes, to that digit. */
  lemma {:induction false} SolveFacts(s0: seq<set<int>>, s1: seq<set<int>>, r0: set<int>, k: int, val: int)
    requires WellFormed(s0) && WellFormed(s1) && IsCoord(k) && val in s0[k]
    requires s1 == s0[k := {val}] && RecordedSolved(s0, r0)
    ensures Shrinks(s0, s1) && SolvedAt(s1, k) && RecordedSolved(s1, r0)
    ensures Sound(s0, s1, SolveTargets(k, val), false)
  {
    assert |s1[k]| == 1;
    forall z | z in r0 ensures SolvedAt(s1, z) {
      if z == k {
        SingletonShrinks({val}, s0[k]);
      }
    }
    forall sol | IsSolution(sol) && Consistent(sol, s0) && Excludes(sol, SolveTargets(k, val))
      ensures Consistent(sol, s1)
    {
      SolvedDigit(sol, k, val);
    }
  }

  /** The end of solveAndCallNaked: the solve at k, then the cascade run from k. */
  lemma {:induction false} SolveThenCascadeEnd(s0: seq<set<int>>, r0: set<int>, q0: seq<int>,
                                               s1: seq<set<int>>,
                                               s2: seq<set<int>>, r2: set<int>, q2: seq<int>, k: int, val: int)
    requires WellFormed(s0) && WellFormed(s1) && IsCoord(k) && val in s0[k]
    requires s1 == s0[k := {val}] && RecordedSolved(s0, r0)
    requires Progress(s1, r0, q0, s2, r2, q2) && Sound(s1, s2, {}, false) && k in r2
    ensures Progress(s0, r0, q0, s2, r2, q2)
    ensures Sound(s0, s2, SolveTargets(k, val), false)
    ensures s2[k] == {val}
  {
    SolveFacts(s0, s1, r0, k, val);
    SolvedKept(s1, s2, k);
    forall i | |q0| <= i < |q2| ensures IsCoord(q2[i]) && s2[q2[i]] != s0[q2[i]] {
      var x := q2[i];
      assert IsCoord(x) && s2[x] <= s1[x] <= s0[x];
    }
    forall x | 0 <= x < 81 && s2[x] != s0[x] ensures x in q2 || SolvedAt(s2, x) {
      if x != k {
        assert s1[x] == s0[x];
      }
    }
    forall z | z in r2 && (z !in r0 || CleanAt(s0, z)) ensures CleanAt(s2, z) {
      if z in r0 {
        CleanShrinks(s0, s1, z);
      }
    }
    SoundTrans(s0, s1, s2, SolveTargets(k, val), {}, false);
  }

  /** The removal targets of removeAllAndCallNaked: the digits of vals, at k. */
  function CellTargets(k: int, vals: seq<int>): set<(int, int)> {
    set v | v in vals :: (k, v)
  }

  /** One step of removeAllAndCallNaked: the next digit removed from the same cell. */
  lemma {:induction false} RemoveAllStep(s0: seq<set<int>>, r0: set<int>, q0: seq<int>,
                                         s1: seq<set<int>>, r1: set<int>, q1: seq<int>,
                                         s2: seq<set<int>>, r2: set<int>, q2: seq<int>,
                                         k: int, done: seq<int>, v: int, failed: bool)
    requires IsCoord(k)
    requires Progress(s0, r0, q0, s1, r1, q1) && AllQueued(s0, s1, q1) && Sound(s0, s1, CellTargets(k, done), false)
    requires Progress(s1, r1, q1, s2, r2, q2) && AllQueued(s1, s2, q2) && Sound(s1, s2, {(k, v)}, failed)
    requires forall u :: u in done ==> u !in s1[k]
    ensures Progress(s0, r0, q0, s2, r2, q2) && AllQueued(s0, s2, q2)
    ensures Sound(s0, s2, CellTargets(k, done + [v]), failed)
    ensures forall u :: u in done ==> u !in s2[k]
    ensures s2 != s0 <==> s1 != s0 || s2 != s1
  {
    ProgressTrans(s0, r0, q0, s1, r1, q1, s2, r2, q2);
    AllQueuedTrans(s0, q0, s1, q1, s2, q2);
    SoundTrans(s0, s1, s2, CellTargets(k, done), {(k, v)}, failed);
    SoundWiden(s0, s2, CellTargets(k, done) + {(k, v)}, CellTargets(k, done + [v]), failed);
    ChangedTrans(s0, s1, s2);
  }

  /** A solution that avoids every digit but val at k places val there. */
  lemma SolvedDigit(sol: seq<int>, k: int, val: int)
    requires IsSolution(sol) && IsCoord(k) && Excludes(sol, SolveTargets(k, val))
    ensures sol[k] == val
  {
    var e := sol[k];
    assert IsDigit(e);
    assert e != val ==> (k, e) in SolveTargets(k, val);
  }

  /** Removing the last candidate of a cell fails only on a board without solutions. */
  lemma RemovalRefuted(s: seq<set<int>>, k: int, val: int)
    requires |s| == 81 && IsCoord(k) && s[k] == {val}
    ensures Sound(s, s, {(k, val)}, true)
  {
  }

  /** Solving a cell to a digit it does not carry fails only on a board without solutions. */
  lemma SolveRefuted(s: seq<set<int>>, k: int, val: int)
    requires |s| == 81 && IsCoord(k) && val !in s[k]
    ensures Sound(s, s, SolveTargets(k, val), true)
  {
    forall sol | IsSolution(sol) && Excludes(sol, SolveTargets(k, val)) ensures sol[k] == val {
      SolvedDigit(sol, k, val);
    }
  }

  /**
   * The naked-single eliminations are complete: every solved cell's value is
   * gone from the cells it sees. The solver reaches this state with
   * runNakedSingle, and every rule keeps it.
   */
  ghost predicate Propagated(s: seq<set<int>>)
    requires WellFormed(s)
  {
    forall k :: 0 <= k < 81 && SolvedAt(s, k) ==> CleanAt(s, k)
  }

  /** Every rule keeps the eliminations complete: a cell it solves is recorded and cleaned. */
  lemma {:induction false} PropagatedKept(s0: seq<set<int>>, r0: set<int>, q0: seq<int>,
                                          s1: seq<set<int>>, r1: set<int>, q1: seq<int>)
    requires Progress(s0, r0, q0, s1, r1, q1) && RecordedSolved(s0, r0) && Propagated(s0)
    ensures Propagated(s1)
  {
    forall k | 0 <= k < 81 && SolvedAt(s1, k) ensures CleanAt(s1, k) {
      if SolvedAt(s0, k) {
        CleanShrinks(s0, s1, k);
      } else {
        assert k in r1 && k !in r0;
      }
    }
  }

  /** A rule that relies on complete eliminations is sound when they are complete. */
  ghost predicate SoundWhenPropagated(s0: seq<set<int>>, s1: seq<set<int>>, failed: bool)
  {
    WellFormed(s0) && (Propagated(s0) ==> Sound(s0, s1, {}, failed))
  }

  /** Two such rules run one after the other form one. */
  lemma {:induction false} SoundWhenPropagatedTrans(s0: seq<set<int>>, r0: set<int>, q0: seq<int>,
                                                    s1: seq<set<int>>, r1: set<int>, q1: seq<int>,
                                                    s2: seq<set<int>>, r2: set<int>, q2: seq<int>, failed: bool)
    requires Progress(s0, r0, q0, s1, r1, q1) && Progress(s1, r1, q1, s2, r2, q2) && RecordedSolved(s0, r0)
    requires SoundWhenPropagated(s0, s1, false) && SoundWhenPropagated(s1, s2, failed)
    ensures Progress(s0, r0, q0, s2, r2, q2) && SoundWhenPropagated(s0, s2, failed)
  {
    ProgressTrans(s0, r0, q0, s1, r1, q1, s2, r2, q2);
    if Propagated(s0) {
      PropagatedKept(s0, r0, q0, s1, r1, q1);
      SoundTrans(s0, s1, s2, {}, {}, failed);
    }
  }

  lemma {:induction false} SoundWhenPropagatedRefl(s: seq<set<int>>)
    requires WellFormed(s)
    ensures SoundWhenPropagated(s, s, false)
  {
    SoundRefl(s);
  }

  /** A rule may claim failure less often than its proof allows. */
  lemma SoundWhenPropagatedWeaker(s0: seq<set<int>>, s1: seq<set<int>>, failed: bool, weaker: bool)
    requires SoundWhenPropagated(s0, s1, failed) && (weaker ==> failed)
    ensures SoundWhenPropagated(s0, s1, weaker)
  {
    if Propagated(s0) {
      SoundWeaker(s0, s1, {}, failed, weaker);
    }
  }

  /** A rule that is sound outright is sound when the eliminations are complete. */
  lemma {:induction false} SoundWhenPropagatedFrom(s0: seq<set<int>>, s1: seq<set<int>>, failed: bool)
    requires WellFormed(s0) && Sound(s0, s1, {}, failed)
    ensures SoundWhenPropagated(s0, s1, failed)
  {
  }

  /** Two legs of removals, each avoiding its own targets, make one run that avoids both. */
  lemma {:induction false} TargetsTrans(s0: seq<set<int>>, r0: set<int>, q0: seq<int>,
                                        s1: seq<set<int>>, r1: set<int>, q1: seq<int>,
                                        s2: seq<set<int>>, r2: set<int>, q2: seq<int>,
                                        t: set<(int, int)>, u: set<(int, int)>, failed: bool)
    requires Progress(s0, r0, q0, s1, r1, q1) && Sound(s0, s1, t, false)
    requires Progress(s1, r1, q1, s2, r2, q2) && Sound(s1, s2, u, failed)
    ensures Progress(s0, r0, q0, s2, r2, q2) && Sound(s0, s2, t + u, failed)
    ensures s2 != s0 <==> s1 != s0 || s2 != s1
  {
    ProgressTrans(s0, r0, q0, s1, r1, q1, s2, r2, q2);
    SoundTrans(s0, s1, s2, t, u, failed);
    ChangedTrans(s0, s1, s2);
  }

  /**
   * A step that is sound whenever the board s0 it read its counts from was
   * propagated extends a run from s0 that is sound under the same condition.
   */
  lemma {:induction false} DecidedStep(s0: seq<set<int>>, r0: set<int>, q0: seq<int>,
                                       s1: seq<set<int>>, r1: set<int>, q1: seq<int>,
                                       s2: seq<set<int>>, r2: set<int>, q2: seq<int>, failed: bool)
    requires Progress(s0, r0, q0, s1, r1, q1) && Progress(s1, r1, q1, s2, r2, q2)
    requires SoundWhenPropagated(s0, s1, false)
    requires Propagated(s0) ==> Sound(s1, s2, {}, failed)
    ensures Progress(s0, r0, q0, s2, r2, q2) && SoundWhenPropagated(s0, s2, failed)
    ensures s2 != s0 <==> s1 != s0 || s2 != s1
  {
    ProgressTrans(s0, r0, q0, s1, r1, q1, s2, r2, q2);
    ChangedTrans(s0, s1, s2);
    if Propagated(s0) {
      SoundTrans(s0, s1, s2, {}, {}, failed);
    }
  }

  /** Two steps that are sound under the same condition form one run sound under it. */
  lemma {:induction false} GuardedSteps(cond: bool, s0: seq<set<int>>, r0: set<int>, q0: seq<int>,
                                        s1: seq<set<int>>, r1: set<int>, q1: seq<int>,
                                        s2: seq<set<int>>, r2: set<int>, q2: seq<int>, failed: bool)
    requires Progress(s0, r0, q0, s1, r1, q1) && Progress(s1, r1, q1, s2, r2, q2)
    requires cond ==> Sound(s0, s1, {}, false)
    requires cond ==> Sound(s1, s2, {}, failed)
    ensures Progress(s0, r0, q0, s2, r2, q2) && (cond ==> Sound(s0, s2, {}, failed))
    ensures s2 != s0 <==> s1 != s0 || s2 != s1
  {
    ProgressTrans(s0, r0, q0, s1, r1, q1, s2, r2, q2);
    ChangedTrans(s0, s1, s2);
    if cond {
      SoundTrans(s0, s1, s2, {}, {}, failed);
    }
  }

  /** A run that failed soundly (under a condition) shows the board it started from has no solution. */
  lemma {:induction false} SoundFailedAtStart(cond: bool, s0: seq<set<int>>, s1: seq<set<int>>, failed: bool)
    requires cond ==> Sound(s0, s1, {}, failed)
    ensures cond ==> Sound(s0, s0, {}, failed)
  {
    if cond {
      forall sol | IsSolution(sol) && Consistent(sol, s0) && Excludes(sol, {}) ensures !failed {
        assert Consistent(sol, s1) && !failed;
      }
    }
  }
}
