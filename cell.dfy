/**
 * The candidates of one sudoku cell (src/Main/Cell.java). A cell keeps a set
 * of digits that may still go in it; it must always keep between one and nine
 * of them, and it is solved when exactly one is left.
 */
module Cells {
  import opened Wrappers
  import opened Geometry

  /** The representation invariant Cell.checkRep enforces: one to nine digits. */
  predicate ValidCands(s: set<int>) {
    s <= Digits && s != {}
  }

  /** The least digit of s that is at least d, or 0 when s holds none. */
  function LeastFrom(s: set<int>, d: int): (v: int)
    requires 1 <= d <= 10
    ensures v == 0 || (d <= v <= 9 && v in s)
    ensures v == 0 ==> forall x :: d <= x <= 9 ==> x !in s
    decreases 10 - d
  {
    if d == 10 then 0 else if d in s then d else LeastFrom(s, d + 1)
  }

  /**
   * The digits of s from d on, in increasing order: the order in which a Java
   * HashSet of small Integers is iterated.
   */
  function InOrderFrom(s: set<int>, d: int): (r: seq<int>)
    requires 1 <= d <= 10
    ensures forall v :: v in r <==> v in s && d <= v <= 9
    ensures forall i :: 0 <= i < |r| ==> d <= r[i] <= 9
    ensures forall i, j :: 0 <= i < j < |r| ==> r[i] < r[j]
    decreases 10 - d
  {
    if d == 10 then []
    else
      var rest := InOrderFrom(s, d + 1);
      if d in s then
        [d] + rest
      else rest
  }

  /** The digits of s in increasing order. */
  function InOrder(s: set<int>): (r: seq<int>)
    ensures forall v :: v in r <==> v in s && IsDigit(v)
    ensures forall i, j :: 0 <= i < j < |r| ==> r[i] < r[j]
  {
    InOrderFrom(s, 1)
  }

  /** Listing candidates in order loses none of them and adds none. */
  lemma InOrderElements(s: set<int>)
    requires s <= Digits
    ensures (set v | v in InOrder(s)) == s
  {
    forall v | v in s ensures v in InOrder(s) {
      assert IsDigit(v);
    }
  }

  /**
   * Cell.getVal: the only candidate of a solved cell, and the unsolved
   * sentinel 0 otherwise.
   */
  function ValueOf(s: set<int>): (v: int)
    requires ValidCands(s)
    ensures |s| == 1 ==> IsDigit(v) && s == {v}
    ensures |s| != 1 ==> v == 0
  {
    if |s| == 1 then
      var v := LeastFrom(s, 1);
      assert v in s by {
        var x :| x in s;
        assert v != 0;
      }
      assert s - {v} == {} by {
        assert |s - {v}| == 0;
      }
      v
    else 0
  }

  /** A solved cell's value is its candidate, and a value pins down the candidate set. */
  lemma {:induction false} ValueOfSolved(s: set<int>, v: int)
    requires IsDigit(v)
    ensures ValidCands({v}) && ValueOf({v}) == v
  {
    assert |{v}| == 1;
  }

  /** Two candidate sets with the same solved value are the same singleton. */
  lemma {:induction false} ValueOfInjective(s: set<int>, t: set<int>)
    requires ValidCands(s) && ValidCands(t) && |s| == 1 && |t| == 1
    ensures ValueOf(s) == ValueOf(t) <==> s == t
  {
  }

  class Cell {
    var cands: set<int>

    ghost predicate Valid()
      reads this
    {
      ValidCands(cands)
    }

    /** A cell with all nine candidates. */
    constructor ()
      ensures Valid() && cands == Digits
      ensures !IsSolved() && Size() == 9
    {
      cands := Digits;
      new;
      DigitsSize();
    }

    /**
     * The cell solved to `value`; a value outside 1..9 is refused as
     * IllegalArgumentException is raised by checkVal.
     */
    static method OfValue(value: int) returns (r: Result<Cell>)
      ensures r.Ok? <==> IsDigit(value)
      ensures r.Err? ==> r.error == InvalidValue
      ensures r.Ok? ==> fresh(r.value) && r.value.Valid() && r.value.cands == {value}
      ensures r.Ok? ==> r.value.IsSolved() && r.value.Value() == value
    {
      if value < 1 || value > 9 {
        return Err(InvalidValue);
      }
      var c := new Cell();
      c.cands := {value};
      ValueOfSolved({value}, value);
      return Ok(c);
    }

    /** Solves the cell to `value`, which must already be a candidate. */
    method Solve(value: int) returns (o: Outcome)
      requires Valid()
      modifies this
      ensures Valid() && cands <= old(cands)
      ensures o.Pass? <==> value in old(cands)
      ensures o.Pass? ==> cands == {value}
      ensures o.Fail? ==> o.error == NotACandidate && cands == old(cands)
    {
      if value !in cands {
        return Fail(NotACandidate);
      }
      cands := {value};
      return Pass;
    }

    /**
     * Removes `value`; the answer says whether it was a candidate. Removing the
     * last candidate breaks the invariant and is refused.
     */
    method Remove(value: int) returns (r: Result<bool>)
      requires Valid()
      modifies this
      ensures Valid() && cands <= old(cands)
      ensures r.Err? <==> old(cands) == {value}
      ensures r.Err? ==> r.error == NoCandidatesLeft && cands == old(cands)
      ensures r.Ok? ==> r.value == (value in old(cands)) && cands == old(cands) - {value}
    {
      var removed := value in cands;
      if cands - {value} == {} {
        return Err(NoCandidatesLeft);
      }
      cands := cands - {value};
      return Ok(removed);
    }

    predicate IsSolved()
      reads this
    {
      |cands| == 1
    }

    /** The number of candidates, which the invariant keeps within 1..9. */
    function Size(): (n: int)
      reads this
      requires Valid()
      ensures 1 <= n <= 9
      ensures n == 1 <==> IsSolved()
    {
      DigitSubsetSize(cands);
      |cands|
    }

    predicate Contains(value: int)
      reads this
    {
      value in cands
    }

    /** Cell.getVal: the candidate of a solved cell, the sentinel 0 otherwise. */
    function Value(): (v: int)
      reads this
      requires Valid()
      ensures IsSolved() <==> IsDigit(v)
      ensures IsSolved() ==> cands == {v}
      ensures !IsSolved() ==> v == 0
    {
      ValueOf(cands)
    }

    /** Cell.getVal as written: the candidate of a solved cell, -1 otherwise. */
    function ValueAsWritten(): (v: int)
      reads this
      requires Valid()
      ensures IsSolved() <==> IsDigit(v)
      ensures IsSolved() ==> cands == {v}
      ensures !IsSolved() ==> v == -1
    {
      if IsSolved() then Value() else -1
    }

    /** Cell.equals: two cells are equal iff their candidate sets are. */
    predicate Equals(other: Cell)
      reads this, other
    {
      cands == other.cands
    }

    /**
     * Replaces the candidates by a copy of `s` (Cell.setCandidates, used by the
     * grid transforms); `s` must itself satisfy the cell invariant.
     */
    method SetCandidates(s: set<int>)
      requires ValidCands(s)
      modifies this
      ensures Valid() && cands == s
    {
      cands := s;
    }
  }
}
