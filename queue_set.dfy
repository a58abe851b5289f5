/**
 * A FIFO queue with set semantics (src/Main/QueueSet.java): an element is
 * queued at most once, and adding an element that is already queued changes
 * nothing. The solver keeps the coordinates of changed cells in one.
 */
module QueueSets {
  import opened Wrappers

  predicate NoDuplicates<E(==)>(s: seq<E>) {
    forall i, j :: 0 <= i < j < |s| ==> s[i] != s[j]
  }

  function Elements<E(==)>(s: seq<E>): set<E> {
    set x | x in s
  }

  /** A sequence without duplicates has as many distinct elements as entries. */
  lemma {:induction false} DistinctCount<E>(s: seq<E>)
    requires NoDuplicates(s)
    ensures |Elements(s)| == |s|
  {
    if s != [] {
      var n := |s| - 1;
      DistinctCount(s[..n]);
      assert Elements(s) == Elements(s[..n]) + {s[n]};
      assert s[n] !in Elements(s[..n]);
    }
  }

  /**
   * The elements addAll appends, in order, when `seen` is already queued:
   * each element of xs that is neither in `seen` nor earlier in xs.
   */
  function Appended<E(==)>(seen: set<E>, xs: seq<E>): seq<E>
  {
    if xs == [] then []
    else
      var p := Appended(seen, xs[..|xs| - 1]);
      var x := xs[|xs| - 1];
      if x in seen || x in p then p else p + [x]
  }

  /** addAll appends exactly the new elements, each once, in order of first occurrence. */
  lemma {:induction false} AppendedProperties<E>(seen: set<E>, xs: seq<E>)
    ensures NoDuplicates(Appended(seen, xs))
    ensures forall x :: x in Appended(seen, xs) ==> x in xs && x !in seen
    ensures forall x :: x in xs && x !in seen ==> x in Appended(seen, xs)
    ensures forall i, j :: 0 <= i < j < |Appended(seen, xs)| ==>
      FirstIndex(xs, Appended(seen, xs)[i]) < FirstIndex(xs, Appended(seen, xs)[j])
  {
    AppendedMembers(seen, xs);
    AppendedDistinct(seen, xs);
    AppendedOrder(seen, xs);
  }

  /** The elements addAll appends are those of xs that are not in `seen`. */
  lemma {:induction false} AppendedMembers<E>(seen: set<E>, xs: seq<E>)
    ensures forall x :: x in Appended(seen, xs) ==> x in xs && x !in seen
    ensures forall x :: x in xs && x !in seen ==> x in Appended(seen, xs)
  {
    if xs != [] {
      var n := |xs| - 1;
      AppendedMembers(seen, xs[..n]);
      assert xs == xs[..n] + [xs[n]];
    }
  }

  /** addAll appends each element at most once. */
  lemma {:induction false} AppendedDistinct<E>(seen: set<E>, xs: seq<E>)
    ensures NoDuplicates(Appended(seen, xs))
  {
    if xs != [] {
      var n := |xs| - 1;
      AppendedDistinct(seen, xs[..n]);
    }
  }

  /** addAll appends in order of first occurrence in xs. */
  lemma {:induction false} AppendedOrder<E>(seen: set<E>, xs: seq<E>)
    ensures forall i, j :: 0 <= i < j < |Appended(seen, xs)| ==>
      FirstIndex(xs, Appended(seen, xs)[i]) < FirstIndex(xs, Appended(seen, xs)[j])
  {
    if xs != [] {
      var n := |xs| - 1;
      var prefix, last := xs[..n], xs[n];
      var p := Appended(seen, prefix);
      AppendedOrder(seen, prefix);
      AppendedMembers(seen, prefix);
      assert xs == prefix + [last];
      assert forall i :: 0 <= i < |p| ==> FirstIndex(xs, p[i]) == FirstIndex(prefix, p[i]) < n by {
        forall i | 0 <= i < |p| ensures FirstIndex(xs, p[i]) == FirstIndex(prefix, p[i]) < n {
          assert p[i] in p;
          FirstIndexPrefix(xs, n, p[i]);
          FirstIndexBound(prefix, p[i]);
        }
      }
      if !(last in seen || last in p) {
        assert last !in prefix && xs[..|xs| - 1] == prefix && xs[|xs| - 1] == last;
        FirstIndexLast(xs);
        var a := p + [last];
        forall i, j | 0 <= i < j < |a| ensures FirstIndex(xs, a[i]) < FirstIndex(xs, a[j]) {
          assert a[i] == p[i];
          if j < |p| {
            assert a[j] == p[j];
          }
        }
      }
    }
  }

  /** The index of the first occurrence of x in s, or |s| when there is none. */
  function FirstIndex<E(==)>(s: seq<E>, x: E): (i: nat)
    ensures i <= |s|
    ensures i < |s| <==> x in s
    ensures i < |s| ==> s[i] == x && x !in s[..i]
  {
    if s == [] then 0
    else if s[0] == x then 0
    else
      assert s[1..][..FirstIndex(s[1..], x)] == s[..FirstIndex(s[1..], x) + 1][1..];
      FirstIndex(s[1..], x) + 1
  }

  lemma FirstIndexBound<E>(s: seq<E>, x: E)
    requires x in s
    ensures FirstIndex(s, x) < |s|
  {}

  lemma {:induction false} FirstIndexPrefix<E>(s: seq<E>, n: nat, x: E)
    requires n <= |s| && x in s[..n]
    ensures FirstIndex(s, x) == FirstIndex(s[..n], x)
  {
    var i := FirstIndex(s[..n], x);
    assert s[..n][..i] == s[..i];
  }

  lemma {:induction false} FirstIndexLast<E>(s: seq<E>)
    requires s != [] && s[|s| - 1] !in s[..|s| - 1]
    ensures FirstIndex(s, s[|s| - 1]) == |s| - 1
  {
    assert s == s[..|s| - 1] + [s[|s| - 1]];
  }

  class QueueSet<E(==)> {
    var elementSet: set<E>
    var elementQueue: seq<E>

    /** The queue holds no duplicates and the set is exactly what is queued. */
    ghost predicate Valid()
      reads this
    {
      NoDuplicates(elementQueue) && elementSet == Elements(elementQueue)
    }

    constructor ()
      ensures Valid() && elementQueue == [] && elementSet == {}
      ensures IsEmpty()
    {
      elementSet := {};
      elementQueue := [];
    }

    /** QueueSet.size: the queue length, which equals the number of distinct elements. */
    function Size(): (n: nat)
      reads this
      requires Valid()
      ensures n == |elementSet|
    {
      DistinctCount(elementQueue);
      |elementQueue|
    }

    predicate IsEmpty()
      reads this
      requires Valid()
    {
      Size() == 0
    }

    /** An empty queue is one with no element in its set. */
    lemma IsEmptyMeansNoElements()
      requires Valid()
      ensures IsEmpty() <==> elementSet == {} && elementQueue == []
    {
    }

    /** QueueSet.contains: looks in the set, which answers for the queue. */
    function Contains(x: E): (b: bool)
      reads this
      requires Valid()
      ensures b <==> x in elementQueue
    {
      x in elementSet
    }

    /** QueueSet.add: enqueues x unless it is already queued; says whether it did. */
    method Add(x: E) returns (added: bool)
      requires Valid()
      modifies this
      ensures Valid()
      ensures added <==> x !in old(elementQueue)
      ensures elementQueue == if added then old(elementQueue) + [x] else old(elementQueue)
    {
      if x in elementSet {
        return false;
      }
      elementSet := elementSet + {x};
      elementQueue := elementQueue + [x];
      return true;
    }

    /** QueueSet.addAll: adds the elements of xs in order; true iff one was new. */
    method AddAll(xs: seq<E>) returns (changed: bool)
      requires Valid()
      modifies this
      ensures Valid()
      ensures elementQueue == old(elementQueue) + Appended(old(elementSet), xs)
      ensures changed <==> exists x :: x in xs && x !in old(elementQueue)
    {
      changed := false;
      var i := 0;
      while i < |xs|
        invariant 0 <= i <= |xs|
        invariant Valid()
        invariant elementQueue == old(elementQueue) + Appended(old(elementSet), xs[..i])
        invariant changed <==> Appended(old(elementSet), xs[..i]) != []
      {
        assert xs[..i + 1][..i] == xs[..i];
        var added := Add(xs[i]);
        changed := changed || added;
        i := i + 1;
      }
      assert xs[..i] == xs;
      AppendedProperties(old(elementSet), xs);
      if changed {
        var y := Appended(old(elementSet), xs)[0];
        assert y in Appended(old(elementSet), xs);
        assert y in xs && y !in old(elementQueue);
      }
    }

    /** QueueSet.remove(): takes the oldest element; fails on an empty queue. */
    method Remove() returns (r: Result<E>)
      requires Valid()
      modifies this
      ensures Valid()
      ensures r.Err? <==> old(elementQueue) == []
      ensures r.Err? ==> r.error == EmptyCollection && elementQueue == old(elementQueue)
      ensures r.Ok? ==> r.value == old(elementQueue)[0] && elementQueue == old(elementQueue)[1..]
      ensures r.Ok? ==> elementSet == old(elementSet) - {r.value}
    {
      if elementQueue == [] {
        return Err(EmptyCollection);
      }
      var removed := elementQueue[0];
      elementQueue := elementQueue[1..];
      elementSet := elementSet - {removed};
      return Ok(removed);
    }

    /** QueueSet.peek: the oldest element, or nothing (Java's null) on an empty queue. */
    function Peek(): (r: Option<E>)
      reads this
      requires Valid()
      ensures r.None? <==> elementSet == {}
      ensures r.Some? ==> r.value == elementQueue[0] && r.value in elementSet
    {
      if elementQueue == [] then None
      else
        assert elementQueue[0] in elementSet;
        Some(elementQueue[0])
    }
  }
}
