/**
 * Why the deduction rules of src/Main/Solver.java keep every solution: one
 * lemma per rule, on board values, saying that the candidates a rule removes
 * are excluded by every solution the board admits. The rules that read a
 * snapshot of candidate counts rely on `Propagation.Propagated`, the state
 * the solver keeps once runNakedSingle has run.
 */
module Deductions {
  import opened Geometry
  import opened Grids
  import opened Solutions
  import opened Propagation
  import opened StackSets

  /*** Hidden single (Solver.hiddenSingle). ***/

  /** A digit counted once among the unsolved cells of cs has one unsolved holder. */
  lemma {:induction false} FrequencyOneUnique(s: seq<set<int>>, cs: seq<int>, d: int, i: int, j: int)
    requires WellFormed(s) && AllCoords(cs) && Frequency(s, cs, d, true) <= 1
    requires 0 <= i < |cs| && d in s[cs[i]] && !SolvedAt(s, cs[i])
    requires 0 <= j < |cs| && d in s[cs[j]] && !SolvedAt(s, cs[j])
    ensures i == j
    decreases |cs|
  {
    var n := |cs| - 1;
    var prefix := cs[..n];
    if i < n && j < n {
      assert prefix[i] == cs[i] && prefix[j] == cs[j];
      FrequencyOneUnique(s, prefix, d, i, j);
    } else if i != j {
      var m := if i < n then i else j;
      assert prefix[m] == cs[m];
      FrequencyPositive(s, prefix, d, true);
    }
  }

  /**
   * In a propagated board b, a digit counted once among the unsolved cells of a
   * group belongs, in every solution, to any cell of the group that still
   * carries it: the group must hold the digit somewhere, no solved cell of
   * the group holds it, and the one unsolved holder is the only candidate.
   */
  lemma {:induction false} HiddenSingleSound(b: seq<set<int>>, c: seq<set<int>>,
                                             cs: seq<int>, d: int, x: int, sol: seq<int>)
    requires WellFormed(b) && WellFormed(c) && Propagated(b) && Shrinks(b, c)
    requires Group(cs) && Frequency(b, cs, d, true) == 1
    requires 0 <= x < 9 && d in c[cs[x]]
    requires IsSolution(sol) && Consistent(sol, c)
    ensures sol[cs[x]] == d
  {
    assert d in b[cs[x]] && IsDigit(d);
    var y := GroupHolds(sol, cs, d);
    assert d in b[cs[y]];
    FrequencyPositive(b, cs, d, true);
    var u :| 0 <= u < 9 && d in b[cs[u]] && !SolvedAt(b, cs[u]);
    UnsolvedHolder(b, cs, d, y, u);
    UnsolvedHolder(b, cs, d, x, u);
    FrequencyOneUnique(b, cs, d, x, y);
  }

  /** In a propagated board, a group cell carrying d is unsolved when an unsolved cell of the group carries d. */
  lemma {:induction false} UnsolvedHolder(b: seq<set<int>>, cs: seq<int>, d: int, y: int, u: int)
    requires WellFormed(b) && Propagated(b) && Group(cs)
    requires 0 <= y < 9 && 0 <= u < 9 && d in b[cs[y]] && d in b[cs[u]] && !SolvedAt(b, cs[u])
    ensures !SolvedAt(b, cs[y])
  {
    var zy, zu := cs[y], cs[u];
    assert y != u ==> Sees(zy, zu);
  }

  /** One placement of hiddenSingle, chained after the earlier ones of the same group. */
  lemma {:induction false} HiddenSingleStep(s0: seq<set<int>>, r0: set<int>, q0: seq<int>,
                                            s1: seq<set<int>>, r1: set<int>, q1: seq<int>,
                                            s2: seq<set<int>>, r2: set<int>, q2: seq<int>,
                                            cs: seq<int>, d: int, x: int)
    requires Progress(s0, r0, q0, s1, r1, q1) && Progress(s1, r1, q1, s2, r2, q2)
    requires SoundWhenPropagated(s0, s1, false)
    requires Group(cs) && Frequency(s0, cs, d, true) == 1
    requires 0 <= x < 9 && d in s1[cs[x]]
    requires Sound(s1, s2, SolveTargets(cs[x], d), false)
    ensures Progress(s0, r0, q0, s2, r2, q2) && SoundWhenPropagated(s0, s2, false)
  {
    ProgressTrans(s0, r0, q0, s1, r1, q1, s2, r2, q2);
    if Propagated(s0) {
      forall sol | IsSolution(sol) && Consistent(sol, s1) ensures Excludes(sol, SolveTargets(cs[x], d)) {
        HiddenSingleSound(s0, s1, cs, d, x, sol);
      }
      SoundDropAll(s1, s2, SolveTargets(cs[x], d), false);
      SoundTrans(s0, s1, s2, {}, {}, false);
    }
  }

  /*** Candidate-count filters (Solver.keepCandRange). ***/

  /** The unsolved cells of cs whose number of candidates lies in [min, max], in order. */
  function KeepRange(s: seq<set<int>>, cs: seq<int>, min: int, max: int): seq<int>
    requires WellFormed(s) && AllCoords(cs)
  {
    if cs == [] then []
    else
      var last := cs[|cs| - 1];
      KeepRange(s, cs[..|cs| - 1], min, max) +
        (if !SolvedAt(s, last) && min <= |s[last]| <= max then [last] else [])
  }

  /** keepCandRange keeps exactly the unsolved cells of cs with min to max candidates. */
  lemma {:induction false} KeepRangeMembers(s: seq<set<int>>, cs: seq<int>, min: int, max: int)
    requires WellFormed(s) && AllCoords(cs)
    ensures AllCoords(KeepRange(s, cs, min, max)) && |KeepRange(s, cs, min, max)| <= |cs|
    ensures forall x :: x in KeepRange(s, cs, min, max) <==>
      x in cs && !SolvedAt(s, x) && min <= |s[x]| <= max
    decreases |cs|
  {
    if cs != [] {
      var n := |cs| - 1;
      KeepRangeMembers(s, cs[..n], min, max);
      assert cs == cs[..n] + [cs[n]];
    }
  }

  /** keepCandRange keeps the order of cs: kept cells of a group still see each other. */
  lemma {:induction false} KeepRangeSees(s: seq<set<int>>, cs: seq<int>, min: int, max: int)
    requires WellFormed(s) && AllCoords(cs) && PairwiseSees(cs)
    ensures PairwiseSees(KeepRange(s, cs, min, max))
    decreases |cs|
  {
    if cs != [] {
      var n := |cs| - 1;
      var prefix := cs[..n];
      assert PairwiseSees(prefix) by {
        forall i, j | 0 <= i < n && 0 <= j < n && i != j ensures Sees(prefix[i], prefix[j]) {
          assert prefix[i] == cs[i] && prefix[j] == cs[j];
        }
      }
      KeepRangeSees(s, prefix, min, max);
      KeepRangeMembers(s, prefix, min, max);
      var k, last := KeepRange(s, prefix, min, max), cs[n];
      assert cs == prefix + [last];
      var tail := if !SolvedAt(s, last) && min <= |s[last]| <= max then [last] else [];
      assert KeepRange(s, cs, min, max) == k + tail by { KeepRangeSnoc(s, prefix, last, min, max); }
      assert forall i :: 0 <= i < |k| ==> k[i] in prefix;
      assert forall i :: 0 <= i < |k| ==> Sees(k[i], last) && Sees(last, k[i]) by {
        forall i | 0 <= i < |k| ensures Sees(k[i], last) && Sees(last, k[i]) {
          var p :| 0 <= p < n && prefix[p] == k[i];
          assert cs[p] == k[i] && cs[n] == last;
        }
      }
      PairwiseSnoc(k, tail);
    }
  }

  /** A sequence that sees itself pairwise stays so with at most one more cell that sees all of it. */
  lemma {:induction false} PairwiseSnoc(k: seq<int>, tail: seq<int>)
    requires PairwiseSees(k) && |tail| <= 1
    requires forall i :: 0 <= i < |k| && tail != [] ==> Sees(k[i], tail[0]) && Sees(tail[0], k[i])
    ensures PairwiseSees(k + tail)
  {
    var c := k + tail;
    forall i, j | 0 <= i < |c| && 0 <= j < |c| && i != j ensures Sees(c[i], c[j]) {
      if i < |k| && j < |k| {
        assert c[i] == k[i] && c[j] == k[j];
      } else if i < |k| {
        assert c[i] == k[i] && c[j] == tail[0];
      } else {
        assert c[i] == tail[0] && c[j] == k[j];
      }
    }
  }

  /** keepCandRange over cs followed by one more cell x. */
  lemma {:induction false} KeepRangeSnoc(s: seq<set<int>>, cs: seq<int>, x: int, min: int, max: int)
    requires WellFormed(s) && AllCoords(cs) && IsCoord(x)
    ensures AllCoords(cs + [x])
    ensures KeepRange(s, cs + [x], min, max) ==
      KeepRange(s, cs, min, max) + (if !SolvedAt(s, x) && min <= |s[x]| <= max then [x] else [])
  {
    assert (cs + [x])[..|cs|] == cs;
  }

  /**
   * Keeping the unsolved cells and then those with min to n candidates is
   * keeping the latter at once: the two filters of nakedCandidateN.
   */
  lemma {:induction false} KeepRangeTwice(s: seq<set<int>>, cs: seq<int>, min: int, n: int)
    requires WellFormed(s) && AllCoords(cs)
    ensures AllCoords(KeepRange(s, cs, min, 9))
    ensures KeepRange(s, KeepRange(s, cs, min, 9), min, n) == KeepRange(s, cs, min, n)
    decreases |cs|
  {
    KeepRangeMembers(s, cs, min, 9);
    if cs != [] {
      var m := |cs| - 1;
      var prefix, last := cs[..m], cs[m];
      assert cs == prefix + [last];
      var k := KeepRange(s, prefix, min, 9);
      KeepRangeMembers(s, prefix, min, 9);
      KeepRangeTwice(s, prefix, min, n);
      var tail := if !SolvedAt(s, last) && min <= |s[last]| <= n then [last] else [];
      assert KeepRange(s, cs, min, n) == KeepRange(s, prefix, min, n) + tail by {
        KeepRangeSnoc(s, prefix, last, min, n);
      }
      assert |s[last]| <= 9 by { DigitSubsetSize(s[last]); }
      if !SolvedAt(s, last) && min <= |s[last]| {
        assert KeepRange(s, cs, min, 9) == k + [last] by { KeepRangeSnoc(s, prefix, last, min, 9); }
        assert KeepRange(s, k + [last], min, n) == KeepRange(s, k, min, n) + tail by {
          KeepRangeSnoc(s, k, last, min, n);
        }
      } else {
        assert KeepRange(s, cs, min, 9) == k by { KeepRangeSnoc(s, prefix, last, min, 9); }
        assert tail == [];
      }
    }
  }

  /**
   * The two filters of nakedCandidateN on a group: the unsolved cells, then
   * those of them with 2 to n candidates, which are the group's cells with
   * 2 to n candidates and still see each other.
   */
  lemma {:induction false} NakedSetFilters(s: seq<set<int>>, cs: seq<int>, n: int)
    requires WellFormed(s) && Group(cs)
    ensures AllCoords(KeepRange(s, cs, 2, 9))
    ensures forall i :: 0 <= i < |KeepRange(s, cs, 2, 9)| ==> KeepRange(s, cs, 2, 9)[i] in cs
    ensures KeepRange(s, KeepRange(s, cs, 2, 9), 2, n) == KeepRange(s, cs, 2, n)
    ensures AllCoords(KeepRange(s, cs, 2, n)) && PairwiseSees(KeepRange(s, cs, 2, n))
    ensures forall i :: 0 <= i < |KeepRange(s, cs, 2, n)| ==> KeepRange(s, cs, 2, n)[i] in cs
  {
    KeepRangeTwice(s, cs, 2, n);
    KeepRangeMembers(s, cs, 2, 9);
    KeepRangeMembers(s, cs, 2, n);
    KeepRangeSees(s, cs, 2, n);
    forall i | 0 <= i < |KeepRange(s, cs, 2, 9)| ensures KeepRange(s, cs, 2, 9)[i] in cs {
      assert KeepRange(s, cs, 2, 9)[i] in KeepRange(s, cs, 2, 9);
    }
    forall i | 0 <= i < |KeepRange(s, cs, 2, n)| ensures KeepRange(s, cs, 2, n)[i] in cs {
      assert KeepRange(s, cs, 2, n)[i] in KeepRange(s, cs, 2, n);
    }
  }

  /*** Naked sets (Solver.nakedCandidateN). ***/

  /** Two different cells of a group see each other. */
  lemma {:induction false} GroupSees(cs: seq<int>, x: int, y: int)
    requires Group(cs) && x in cs && y in cs && x != y
    ensures Sees(x, y)
  {
    var a :| 0 <= a < 9 && cs[a] == x;
    var b :| 0 <= b < 9 && cs[b] == y;
  }

  /**
   * Cells that see each other and whose candidates lie in a set u of as many
   * digits as there are cells take every digit of u between them, so a cell
   * that sees all of them holds none of u.
   */
  lemma {:induction false} NakedSetSound(s: seq<set<int>>, chosen: seq<int>, u: set<int>, x: int, sol: seq<int>)
    requires WellFormed(s) && AllCoords(chosen) && PairwiseSees(chosen) && |u| == |chosen|
    requires forall j :: 0 <= j < |chosen| ==> s[chosen[j]] <= u
    requires IsCoord(x) && forall j :: 0 <= j < |chosen| ==> Sees(x, chosen[j])
    requires IsSolution(sol) && Consistent(sol, s)
    ensures sol[x] !in u
  {
    forall d | d in u ensures exists j :: 0 <= j < |chosen| && sol[chosen[j]] == d {
      var j := ValuesCover(sol, chosen, u, d);
    }
  }

  /**
   * What the search has established on board s: the chosen cells are cells of
   * the group cs that see each other, and their candidates lie in u, which
   * has as many digits as there are chosen cells.
   */
  ghost predicate NakedSet(s: seq<set<int>>, cs: seq<int>, chosen: seq<int>, u: set<int>)
    requires WellFormed(s)
  {
    Group(cs) && AllCoords(chosen) && PairwiseSees(chosen) && |u| == |chosen| &&
    forall j :: 0 <= j < |chosen| ==> chosen[j] in cs && s[chosen[j]] <= u
  }

  /**
   * One removal of nakedCandidateN: the digits vals of u taken from a cell x of
   * the group that is none of the chosen cells, after the earlier removals.
   */
  lemma {:induction false} NakedSetStep(s0: seq<set<int>>, r0: set<int>, q0: seq<int>,
                                        s1: seq<set<int>>, r1: set<int>, q1: seq<int>,
                                        s2: seq<set<int>>, r2: set<int>, q2: seq<int>,
                                        cs: seq<int>, chosen: seq<int>, u: set<int>,
                                        x: int, vals: seq<int>, failed: bool)
    requires Progress(s0, r0, q0, s1, r1, q1) && AllQueued(s0, s1, q1) && Sound(s0, s1, {}, false)
    requires Progress(s1, r1, q1, s2, r2, q2) && AllQueued(s1, s2, q2) && Sound(s1, s2, CellTargets(x, vals), failed)
    requires NakedSet(s1, cs, chosen, u) && x in cs && x !in chosen
    requires forall v :: v in vals ==> v in u
    ensures Progress(s0, r0, q0, s2, r2, q2) && AllQueued(s0, s2, q2) && Sound(s0, s2, {}, failed)
    ensures NakedSet(s2, cs, chosen, u)
    ensures s2 != s0 <==> s1 != s0 || s2 != s1
  {
    ProgressTrans(s0, r0, q0, s1, r1, q1, s2, r2, q2);
    AllQueuedTrans(s0, q0, s1, q1, s2, q2);
    forall j | 0 <= j < |chosen| ensures Sees(x, chosen[j]) {
      GroupSees(cs, x, chosen[j]);
    }
    forall sol | IsSolution(sol) && Consistent(sol, s1) ensures Excludes(sol, CellTargets(x, vals)) {
      NakedSetSound(s1, chosen, u, x, sol);
    }
    SoundDropAll(s1, s2, CellTargets(x, vals), failed);
    SoundTrans(s0, s1, s2, {}, {}, failed);
    ChangedTrans(s0, s1, s2);
  }

  /**
   * A push of the naked-set search: the next cell x of nCands joins the
   * chosen cells, which still see each other and come from nCands before the
   * next start, and the candidates of each chosen cell still lie in the union
   * of the layers up to its own.
   */
  lemma {:induction false} NakedSetPushed(s: seq<set<int>>, stack0: seq<set<int>>, stack1: seq<set<int>>,
                                          chosen: seq<int>, nCands: seq<int>, start: int, i: int)
    requires WellFormed(s) && AllCoords(nCands) && PairwiseSees(nCands) && PairwiseSees(chosen)
    requires 0 <= start <= i < |nCands|
    requires forall j :: 0 <= j < |chosen| ==> chosen[j] in nCands[..start]
    requires |stack1| == |stack0| + 1 && stack1[..|stack0|] == stack0 && |chosen| == |stack0|
    requires forall j :: 0 <= j < |chosen| ==> s[chosen[j]] <= Union(stack0[..j + 1])
    requires s[nCands[i]] <= Union(stack1)
    ensures PairwiseSees(chosen + [nCands[i]])
    ensures forall j :: 0 <= j < |chosen| + 1 ==> (chosen + [nCands[i]])[j] in nCands[..i + 1]
    ensures forall j :: 0 <= j < |chosen| + 1 ==> s[(chosen + [nCands[i]])[j]] <= Union(stack1[..j + 1])
  {
    var c := chosen + [nCands[i]];
    forall a | 0 <= a < |chosen| ensures Sees(chosen[a], nCands[i]) && Sees(nCands[i], chosen[a]) {
      assert chosen[a] in nCands[..start];
      var p :| 0 <= p < start && nCands[..start][p] == chosen[a];
      assert nCands[p] == chosen[a] && p != i;
    }
    forall j | 0 <= j < |c| ensures c[j] in nCands[..i + 1] {
      if j < |chosen| {
        assert c[j] == chosen[j] && chosen[j] in nCands[..start];
        var p :| 0 <= p < start && nCands[..start][p] == chosen[j];
        assert nCands[..i + 1][p] == c[j];
      } else {
        assert nCands[..i + 1][i] == c[j];
      }
    }
    forall j | 0 <= j < |c| ensures s[c[j]] <= Union(stack1[..j + 1]) {
      if j < |chosen| {
        assert stack1[..j + 1] == stack1[..|stack0|][..j + 1];
      } else {
        assert stack1[..j + 1] == stack1;
      }
    }
  }

  /*** Pointing and claiming (Solver.pointingCandidates, Solver.claimingCandidates). ***/

  /** The cells of cs that carry d, in their order in cs. */
  function Carriers(s: seq<set<int>>, cs: seq<int>, d: int): (r: seq<int>)
    requires WellFormed(s)
    ensures AllCoords(r) && |r| <= |cs|
    ensures forall x :: x in r <==> x in cs && IsCoord(x) && d in s[x]
  {
    if cs == [] then []
    else
      var n := |cs| - 1;
      assert cs == cs[..n] + [cs[n]];
      Carriers(s, cs[..n], d) + (if IsCoord(cs[n]) && d in s[cs[n]] then [cs[n]] else [])
  }

  /** The rows of the cells of cs. */
  function RowsOf(cs: seq<int>): (rows: set<int>)
    requires AllCoords(cs)
    ensures forall r :: r in rows ==> IsIndex(r)
  {
    set x | x in cs :: RowOf(x)
  }

  /** The columns of the cells of cs. */
  function ColumnsOf(cs: seq<int>): (columns: set<int>)
    requires AllCoords(cs)
    ensures forall c :: c in columns ==> IsIndex(c)
  {
    set x | x in cs :: ColumnOf(x)
  }

  /** The number claimingCandidates gives the box of cell k: its band of columns plus three times its band of rows. */
  function BoxNumber(k: int): int {
    ColumnOf(k) / 3 + 3 * (RowOf(k) / 3)
  }

  /** Extending a list of cells by one extends its rows and its columns by that cell's. */
  lemma LinesOfSnoc(cs: seq<int>, x: int)
    requires AllCoords(cs) && IsCoord(x)
    ensures RowsOf(cs + [x]) == RowsOf(cs) + {RowOf(x)}
    ensures ColumnsOf(cs + [x]) == ColumnsOf(cs) + {ColumnOf(x)}
  {
    assert forall y :: y in cs + [x] <==> y in cs || y == x;
  }

  /** The box numbers of the cells of cs; there are none without cells. */
  function BoxesOf(cs: seq<int>): (boxes: set<int>)
    ensures cs == [] ==> boxes == {}
  {
    set x | x in cs :: BoxNumber(x)
  }

  /**
   * The removals of one half of pointingCandidates: when `lines` holds a
   * single row (byRow) or column, d at each cell of that line whose index
   * along it is not in `crossing`; nothing otherwise.
   */
  ghost function AlongTargets(lines: set<int>, crossing: set<int>, byRow: bool, d: int): set<(int, int)> {
    set i, j | i in lines && |lines| == 1 && 0 <= j < 9 && j !in crossing ::
      (if byRow then Coord(i, j) else Coord(j, i), d)
  }

  /** Removing d from the cells of the line cs whose index along it is not in skip. */
  ghost function LineTargets(cs: seq<int>, skip: set<int>, d: int): set<(int, int)> {
    set i | 0 <= i < |cs| && i !in skip :: (cs[i], d)
  }

  /** Removing d from the cells of cs that are not cells of keep. */
  ghost function UnlistedTargets(cs: seq<int>, keep: seq<int>, d: int): set<(int, int)> {
    set i | 0 <= i < |cs| && cs[i] !in keep :: (cs[i], d)
  }

  /** Cells with the same box number share a box. */
  lemma BoxNumberSameBox(j: int, k: int)
    requires IsCoord(j) && IsCoord(k) && BoxNumber(j) == BoxNumber(k)
    ensures SameBox(j, k)
  {
    assert 0 <= ColumnOf(j) / 3 < 3 && 0 <= ColumnOf(k) / 3 < 3;
    assert 0 <= RowOf(j) / 3 < 3 && 0 <= RowOf(k) / 3 < 3;
  }

  lemma SingletonSame(s: set<int>, a: int, b: int)
    requires |s| == 1 && a in s && b in s
    ensures a == b
  {
    if a != b {
      SubsetSize({a, b}, s);
    }
  }

  /**
   * In a propagated board b whose group cs has an unsolved cell carrying d,
   * every solution of a board c inside b puts d on a cell that
   * keepCandRange(cs, 2, 9) keeps in b and that still carries d in c: a
   * solved cell of the group holding d would have removed d from the
   * unsolved one.
   */
  lemma {:induction false} UnsolvedGroupHolder(b: seq<set<int>>, c: seq<set<int>>, cs: seq<int>, d: int,
                                               sol: seq<int>) returns (p: int)
    requires WellFormed(b) && WellFormed(c) && Propagated(b) && Shrinks(b, c)
    requires Group(cs) && IsDigit(d) && Frequency(b, cs, d, true) > 0
    requires IsSolution(sol) && Consistent(sol, c)
    ensures p in Carriers(c, KeepRange(b, cs, 2, 9), d) && sol[p] == d
  {
    var y := GroupHolds(sol, cs, d);
    p := cs[y];
    assert d in c[p] && d in b[p];
    FrequencyPositive(b, cs, d, true);
    var u :| 0 <= u < 9 && d in b[cs[u]] && !SolvedAt(b, cs[u]);
    UnsolvedHolder(b, cs, d, y, u);
    DigitSubsetSize(b[p]);
    KeepRangeMembers(b, cs, 2, 9);
  }

  /**
   * pointingCandidates is sound. In a propagated board b whose box has an
   * unsolved cell carrying d, take the cells of the box unsolved in b
   * that carry d in a board c inside b: when their rows are a single row,
   * no solution of c puts d in that row outside their columns, and when
   * their columns are a single column, none puts d in that column outside
   * their rows.
   */
  lemma {:induction false} PointingSound(b: seq<set<int>>, c: seq<set<int>>, row: int, column: int, d: int,
                                         sol: seq<int>)
    requires WellFormed(b) && WellFormed(c) && Propagated(b) && Shrinks(b, c)
    requires IsIndex(row) && IsIndex(column) && IsDigit(d) && Frequency(b, BoxCoords(row, column), d, true) > 0
    requires IsSolution(sol) && Consistent(sol, c)
    ensures var carriers := Carriers(c, KeepRange(b, BoxCoords(row, column), 2, 9), d);
      Excludes(sol, AlongTargets(RowsOf(carriers), ColumnsOf(carriers), true, d)) &&
      Excludes(sol, AlongTargets(ColumnsOf(carriers), RowsOf(carriers), false, d))
  {
    BoxGroup(row, column);
    var carriers := Carriers(c, KeepRange(b, BoxCoords(row, column), 2, 9), d);
    var rows, columns := RowsOf(carriers), ColumnsOf(carriers);
    var p := UnsolvedGroupHolder(b, c, BoxCoords(row, column), d, sol);
    assert RowOf(p) in rows && ColumnOf(p) in columns;
    forall t | t in AlongTargets(rows, columns, true, d) ensures 0 <= t.0 < |sol| && sol[t.0] != t.1 {
      var i, j :| i in rows && |rows| == 1 && 0 <= j < 9 && j !in columns && t == (Coord(i, j), d);
      SingletonSame(rows, i, RowOf(p));
      CoordBijection(i, j);
      assert Sees(t.0, p);
    }
    forall t | t in AlongTargets(columns, rows, false, d) ensures 0 <= t.0 < |sol| && sol[t.0] != t.1 {
      var i, j :| i in columns && |columns| == 1 && 0 <= j < 9 && j !in rows && t == (Coord(j, i), d);
      SingletonSame(columns, i, ColumnOf(p));
      CoordBijection(j, i);
      assert Sees(t.0, p);
    }
  }

  /**
   * claimingCandidates is sound. In a propagated board b whose group cs
   * has an unsolved cell carrying d, the cells of the group unsolved in b
   * that carry d in a board c inside b are not none; when they lie in a
   * single box, no solution of c puts d in a cell of that box outside them.
   */
  lemma {:induction false} ClaimingSound(b: seq<set<int>>, c: seq<set<int>>, cs: seq<int>, d: int, sol: seq<int>)
    requires WellFormed(b) && WellFormed(c) && Propagated(b) && Shrinks(b, c)
    requires Group(cs) && IsDigit(d) && Frequency(b, cs, d, true) > 0
    requires IsSolution(sol) && Consistent(sol, c)
    ensures var carriers := Carriers(c, KeepRange(b, cs, 2, 9), d);
      |carriers| > 0 &&
      (|BoxesOf(carriers)| == 1 ==>
         Excludes(sol, UnlistedTargets(BoxCoords(RowOf(carriers[0]), ColumnOf(carriers[0])), carriers, d)))
  {
    var carriers := Carriers(c, KeepRange(b, cs, 2, 9), d);
    var p := UnsolvedGroupHolder(b, c, cs, d, sol);
    var first := carriers[0];
    if |BoxesOf(carriers)| == 1 {
      assert BoxNumber(p) in BoxesOf(carriers) && BoxNumber(first) in BoxesOf(carriers);
      SingletonSame(BoxesOf(carriers), BoxNumber(p), BoxNumber(first));
      BoxNumberSameBox(p, first);
      CoordInverse(first);
      var box := BoxCoords(RowOf(first), ColumnOf(first));
      forall t | t in UnlistedTargets(box, carriers, d) ensures 0 <= t.0 < |sol| && sol[t.0] != t.1 {
        var i :| 0 <= i < 9 && box[i] !in carriers && t == (box[i], d);
        BoxCoordsSound(RowOf(first), ColumnOf(first), i);
        assert box[i] != p && SameBox(box[i], p);
        assert Sees(t.0, p);
      }
    }
  }

  /*** X-wing (Solver.xWingRows). ***/

  /** A digit counted twice among the unsolved cells of cs has no third unsolved holder. */
  lemma {:induction false} FrequencyTwoPair(s: seq<set<int>>, cs: seq<int>, d: int, i: int, j: int, k: int)
    requires WellFormed(s) && AllCoords(cs) && Frequency(s, cs, d, true) <= 2 && i != j
    requires 0 <= i < |cs| && d in s[cs[i]] && !SolvedAt(s, cs[i])
    requires 0 <= j < |cs| && d in s[cs[j]] && !SolvedAt(s, cs[j])
    requires 0 <= k < |cs| && d in s[cs[k]] && !SolvedAt(s, cs[k])
    ensures k == i || k == j
    decreases |cs|
  {
    var n := |cs| - 1;
    var prefix := cs[..n];
    if i < n && j < n && k < n {
      assert prefix[i] == cs[i] && prefix[j] == cs[j] && prefix[k] == cs[k];
      FrequencyTwoPair(s, prefix, d, i, j, k);
    } else if k != i && k != j {
      var a, b := if i == n then k else i, if j == n then k else j;
      assert prefix[a] == cs[a] && prefix[b] == cs[b];
      FrequencyOneUnique(s, prefix, d, a, b);
    }
  }

  /**
   * In a propagated board b where d is counted twice among the unsolved cells
   * of row `row` and columns c0 and c1 of that row carry it, every solution b
   * admits puts d in column c0 or c1 of the row.
   */
  lemma {:induction false} XWingLine(b: seq<set<int>>, row: int, c0: int, c1: int, d: int, sol: seq<int>)
    returns (a: int)
    requires WellFormed(b) && Propagated(b) && IsIndex(row) && IsDigit(d)
    requires IsIndex(c0) && IsIndex(c1) && c0 != c1
    requires Frequency(b, RowCoords(row), d, true) == 2 && d in b[Coord(row, c0)] && d in b[Coord(row, c1)]
    requires IsSolution(sol) && Consistent(sol, b)
    ensures (a == c0 || a == c1) && sol[Coord(row, a)] == d
  {
    var cs := RowCoords(row);
    RowGroup(row);
    a := GroupHolds(sol, cs, d);
    assert cs[a] == Coord(row, a) && cs[c0] == Coord(row, c0) && cs[c1] == Coord(row, c1);
    FrequencyPositive(b, cs, d, true);
    var u :| 0 <= u < 9 && d in b[cs[u]] && !SolvedAt(b, cs[u]);
    UnsolvedHolder(b, cs, d, a, u);
    UnsolvedHolder(b, cs, d, c0, u);
    UnsolvedHolder(b, cs, d, c1, u);
    FrequencyTwoPair(b, cs, d, c0, c1, a);
  }

  /** The pairs (cell, d) of columns c0 and c1 in the rows below n other than `row` and r. */
  ghost function XWingTargets(row: int, r: int, c0: int, c1: int, d: int, n: int): set<(int, int)> {
    set r2, c | 0 <= r2 < n && r2 != row && r2 != r && c in {c0, c1} :: (Coord(r2, c), d)
  }

  /** One more row of X-wing targets: the row's two cells, unless it is one of the wing's rows. */
  lemma {:induction false} XWingTargetsStep(row: int, r: int, c0: int, c1: int, d: int, n: int)
    requires 0 <= n && n != row && n != r
    ensures XWingTargets(row, r, c0, c1, d, n) + {(Coord(n, c0), d), (Coord(n, c1), d)} ==
            XWingTargets(row, r, c0, c1, d, n + 1)
  {
    var small, big := XWingTargets(row, r, c0, c1, d, n), XWingTargets(row, r, c0, c1, d, n + 1);
    assert c0 in {c0, c1} && c1 in {c0, c1};
  }

  lemma {:induction false} XWingTargetsSkip(row: int, r: int, c0: int, c1: int, d: int, n: int)
    requires n == row || n == r
    ensures XWingTargets(row, r, c0, c1, d, n) == XWingTargets(row, r, c0, c1, d, n + 1)
  {
  }

  lemma {:induction false} XWingTargetsGrow(row: int, r: int, c0: int, c1: int, d: int, n: int, m: int)
    requires n <= m
    ensures XWingTargets(row, r, c0, c1, d, n) <= XWingTargets(row, r, c0, c1, d, m)
  {
  }

  /**
   * The X-wing: d is counted twice among the unsolved cells of row `row` in
   * the propagated board b and twice in row r of the propagated board s
   * inside b, and columns c0 and c1 carry it in both rows. Every solution of s
   * puts d in columns c0 and c1 of those two rows, one each, so no other row
   * holds d in either column.
   */
  lemma {:induction false} XWingSound(b: seq<set<int>>, s: seq<set<int>>, row: int, r: int, c0: int, c1: int,
                                      d: int, sol: seq<int>)
    requires WellFormed(b) && WellFormed(s) && Propagated(b) && Propagated(s) && Shrinks(b, s)
    requires IsIndex(row) && IsIndex(r) && row != r && IsIndex(c0) && IsIndex(c1) && c0 != c1 && IsDigit(d)
    requires Frequency(b, RowCoords(row), d, true) == 2 && d in b[Coord(row, c0)] && d in b[Coord(row, c1)]
    requires Frequency(s, RowCoords(r), d, true) == 2 && d in s[Coord(r, c0)] && d in s[Coord(r, c1)]
    requires IsSolution(sol) && Consistent(sol, s)
    ensures Excludes(sol, XWingTargets(row, r, c0, c1, d, 9))
  {
    ConsistentGrows(sol, b, s);
    var a := XWingLine(b, row, c0, c1, d, sol);
    var e := XWingLine(s, r, c0, c1, d, sol);
    CoordBijection(row, a);
    CoordBijection(r, a);
    CoordBijection(r, e);
    assert Sees(Coord(row, a), Coord(r, a));
    assert a != e;
    forall t | t in XWingTargets(row, r, c0, c1, d, 9) ensures 0 <= t.0 < |sol| && sol[t.0] != t.1 {
      var r2, c :| 0 <= r2 < 9 && r2 != row && r2 != r && c in {c0, c1} && t == (Coord(r2, c), d);
      CoordBijection(r2, c);
      if c == a {
        assert Sees(t.0, Coord(row, a));
      } else {
        assert Sees(t.0, Coord(r, e));
      }
    }
  }

  /*** Merging a board with the same solutions (Solver.mergeGrid). ***/

  /** The pairs (cell, digit) that board f rules out. */
  ghost function MergeTargets(f: seq<set<int>>): set<(int, int)> {
    set k, v | 0 <= k < |f| && v in Digits && v !in f[k] :: (k, v)
  }

  /** A solution that board f admits avoids everything f rules out. */
  lemma {:induction false} MergeSound(f: seq<set<int>>, sol: seq<int>)
    requires Consistent(sol, f)
    ensures Excludes(sol, MergeTargets(f))
  {
    forall t | t in MergeTargets(f) ensures 0 <= t.0 < |sol| && sol[t.0] != t.1 {
      var k, v :| 0 <= k < |f| && v in Digits && v !in f[k] && t == (k, v);
      assert sol[k] in f[k];
    }
  }

  /**
   * Cell k of board f rules out the digits missing from keep.
   */
  ghost function CellMergeTargets(k: int, keep: set<int>): set<(int, int)> {
    set v | v in Digits && v !in keep :: (k, v)
  }

  /**
   * Merging with a board b that keeps every solution of s0 (when cond
   * holds) loses none of them: whatever b rules out, no solution of s0 uses.
   */
  lemma {:induction false} MergeKept(cond: bool, s0: seq<set<int>>, b: seq<set<int>>, s2: seq<set<int>>, failed: bool)
    requires cond ==> Sound(s0, b, {}, false)
    requires Sound(s0, s2, MergeTargets(b), failed)
    ensures cond ==> Sound(s0, s2, {}, failed)
  {
    if cond {
      forall sol | IsSolution(sol) && Consistent(sol, s0) ensures Excludes(sol, MergeTargets(b)) {
        assert Excludes(sol, {});
        MergeSound(b, sol);
      }
      SoundDropAll(s0, s2, MergeTargets(b), failed);
    }
  }
}
