/**
 * A stack of integer collections that keeps the union of everything pushed
 * (src/Main/StackSet.java). A push records only the integers that were not
 * already present, so each pop takes back exactly what its push added. The
 * naked-set search of the solver pushes one cell's candidates per chosen cell.
 */
module StackSets {
  import opened Wrappers

  /** The union of a list of layers. */
  function Union(layers: seq<set<int>>): set<int> {
    if layers == [] then {} else Union(layers[..|layers| - 1]) + layers[|layers| - 1]
  }

  predicate PairwiseDisjoint(layers: seq<set<int>>) {
    forall i, j :: 0 <= i < j < |layers| ==> layers[i] !! layers[j]
  }

  /** Every layer lies inside the union. */
  lemma {:induction false} LayerInUnion(layers: seq<set<int>>, i: int)
    requires 0 <= i < |layers|
    ensures layers[i] <= Union(layers)
    decreases |layers|
  {
    var n := |layers| - 1;
    if i < n {
      LayerInUnion(layers[..n], i);
    }
  }

  /** The union of the first layers lies inside the union of all. */
  lemma {:induction false} UnionPrefix(layers: seq<set<int>>, i: int)
    requires 0 <= i <= |layers|
    ensures Union(layers[..i]) <= Union(layers)
    decreases |layers|
  {
    if i < |layers| {
      var n := |layers| - 1;
      assert layers[..n][..i] == layers[..i];
      UnionPrefix(layers[..n], i);
    } else {
      assert layers[..i] == layers;
    }
  }

  /** The cardinality of a union of disjoint layers is the sum of their sizes. */
  function SizeSum(layers: seq<set<int>>): nat {
    if layers == [] then 0 else SizeSum(layers[..|layers| - 1]) + |layers[|layers| - 1]|
  }

  lemma {:induction false} DisjointUnionSize(layers: seq<set<int>>)
    requires PairwiseDisjoint(layers)
    ensures |Union(layers)| == SizeSum(layers)
    decreases |layers|
  {
    if layers != [] {
      var n := |layers| - 1;
      var prefix := layers[..n];
      DisjointUnionSize(prefix);
      forall x | x in Union(prefix) ensures x !in layers[n] {
        var i := UnionWitness(prefix, x);
        assert prefix[i] == layers[i];
      }
    }
  }

  /** A layer that holds x, for an x of the union. */
  lemma {:induction false} UnionWitness(layers: seq<set<int>>, x: int) returns (i: int)
    requires x in Union(layers)
    ensures 0 <= i < |layers| && x in layers[i]
    decreases |layers|
  {
    var n := |layers| - 1;
    if x in layers[n] {
      i := n;
    } else {
      i := UnionWitness(layers[..n], x);
    }
  }

  class StackSet {
    var stack: seq<set<int>>
    var members: set<int>

    /** The recorded layers are pairwise disjoint and together make up `members`. */
    ghost predicate Valid()
      reads this
    {
      PairwiseDisjoint(stack) && members == Union(stack)
    }

    constructor ()
      ensures Valid() && stack == [] && members == {}
    {
      stack := [];
      members := {};
    }

    /**
     * StackSet.push: adds the integers of xs, in iteration order, and records
     * as the new layer exactly those that were not already present.
     */
    method Push(xs: seq<int>)
      requires Valid()
      modifies this
      ensures Valid()
      ensures stack == old(stack) + [(set x | x in xs) - old(members)]
      ensures members == old(members) + (set x | x in xs)
    {
      var added;
      members, added := AddEach(members, xs);
      forall i | 0 <= i < |stack| ensures stack[i] !! added {
        LayerInUnion(stack, i);
      }
      stack := stack + [added];
      assert stack[..|stack| - 1] == old(stack);
    }

    /** The loop of push: adds each integer, collecting those that were new. */
    static method AddEach(members: set<int>, xs: seq<int>) returns (after: set<int>, added: set<int>)
      ensures after == members + (set x | x in xs)
      ensures added == (set x | x in xs) - members
    {
      after, added := members, {};
      for i := 0 to |xs|
        invariant added == (set x | x in xs[..i]) - members
        invariant after == members + (set x | x in xs[..i])
      {
        assert xs[..i + 1] == xs[..i] + [xs[i]];
        if xs[i] !in after {
          after := after + {xs[i]};
          added := added + {xs[i]};
        }
      }
      assert xs[..|xs|] == xs;
    }

    /** StackSet.pop: takes back the top layer; fails on an empty stack. */
    method Pop() returns (r: Result<set<int>>)
      requires Valid()
      modifies this
      ensures Valid()
      ensures r.Err? <==> old(stack) == []
      ensures r.Err? ==> r.error == EmptyCollection && stack == old(stack) && members == old(members)
      ensures r.Ok? ==> stack + [r.value] == old(stack) && members == old(members) - r.value
    {
      if stack == [] {
        return Err(EmptyCollection);
      }
      var n := |stack| - 1;
      var popped := stack[n];
      forall x | x in Union(stack[..n]) ensures x !in popped {
        var i := UnionWitness(stack[..n], x);
        assert stack[..n][i] == stack[i];
      }
      stack := stack[..n];
      members := members - popped;
      assert stack + [popped] == old(stack);
      return Ok(popped);
    }

    /** StackSet.size: the number of pushes still on the stack, not of integers. */
    function Size(): (n: nat)
      reads this
      ensures n == |stack|
    {
      |stack|
    }

    /** StackSet.asSet: the union of everything currently pushed. */
    function AsSet(): (s: set<int>)
      reads this
      requires Valid()
      ensures s == Union(stack)
      ensures |s| == SizeSum(stack)
    {
      DisjointUnionSize(stack);
      members
    }
  }

  /** A push followed by a pop leaves the stack and the union as they were. */
  method PushThenPop(st: StackSet, xs: seq<int>) returns (popped: set<int>)
    requires st.Valid()
    modifies st
    ensures st.Valid() && st.stack == old(st.stack) && st.members == old(st.members)
    ensures popped == (set x | x in xs) - old(st.members)
  {
    st.Push(xs);
    var r := st.Pop();
    popped := r.value;
  }
}
