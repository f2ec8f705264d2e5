/** `_PsiUnionFind`: builds the compact parent array of the Psi merge tree from ranked pairs. */
module PsiUnionFind {
  import opened Options
  import opened MergeHierarchy
  import opened PsiForest
  import opened PsiTree
  import opened PsiRefinement
  import opened PsiChains
  import opened PsiInvariant

  class UnionFind {
    var rank: seq<nat>
    var parentChains: seq<seq<nat>>
    var nodeIds: seq<seq<nat>>
    var tree: seq<int>
    var nextId: nat
    ghost var log: seq<Pair>  // the pairs given to Union so far

    /** The forest that the fields stand for. */
    ghost function State(): Forest
      reads this
    {
      Forest(rank, Parents(parentChains), nodeIds, nextId)
    }

    ghost predicate Valid()
      reads this
    {
      Chained() && Sound(State(), tree, log)
    }

    ghost predicate Chained()
      reads this
    {
      Shaped(State()) && ChainsOk(State(), parentChains)
    }

    constructor (n: nat)
      ensures Valid() && log == [] && |rank| == n && nextId == n && |Roots(State())| == n
    {
      hide Sound, Shaped, ChainsOk, Parents, Repeat, Singletons, Roots;
      rank := Repeat(0, n);
      parentChains := Repeat([], n);
      nodeIds := Singletons(n);
      tree := Repeat(-1, if n == 0 then 1 else 2 * n - 1);
      nextId := n;
      log := [];
      new;
      FreshState(n);
    }

    method Find(i: nat) returns (chain: seq<nat>)
      requires Chained() && i < |rank|
      modifies this`parentChains
      ensures Chained() && State() == old(State())
      ensures Answers(State(), i, chain) && ChainFull(State(), i, parentChains[i])
      ensures KeepsFull(State(), old(parentChains), parentChains)
      decreases nextId - rank[i]
    {
      hide Shaped, ChainsOk, ChainFull, Parents;
      ghost var f := State();
      FindStops(f, parentChains, i);
      chain := parentChains[i];
      if |chain| == 0 || (|chain| == 1 && chain[0] == i) {
        return [i];
      }
      var above := Find(if chain[0] == i then chain[1] else chain[0]);
      FindStep(f, parentChains, i, above);
      chain := OrderedExtend(parentChains[i], above);
      parentChains := parentChains[i := chain];
    }

    method RankBisectRight(chain: seq<nat>, limit: nat) returns (idx: nat)
      requires forall t :: 0 <= t < |chain| ==> chain[t] < |rank|
      ensures idx <= |chain|
      ensures forall t :: 0 <= t < idx ==> rank[chain[t]] <= limit
      ensures idx < |chain| ==> rank[chain[idx]] > limit
    {
      idx := 0;
      while idx < |chain| && rank[chain[idx]] <= limit
        invariant idx <= |chain|
        invariant forall t :: 0 <= t < idx ==> rank[chain[t]] <= limit
      {
        idx := idx + 1;
      }
    }

    /** Records a merge edge.  With an insert point the rank index is clamped to its ids;
        `Union` never needs the clamp. */
    method Build(i: nat, j: nat, insertPoint: Option<nat>)
      requires i < |rank| && i < |nodeIds| && nodeIds[i] != [] && nodeIds[i][|nodeIds[i]| - 1] < |tree|
      requires insertPoint.None? ==> j < |nodeIds| && nodeIds[j] != [] && nodeIds[j][|nodeIds[j]| - 1] < |tree|
      requires insertPoint.Some? ==> insertPoint.value < |nodeIds| && nodeIds[insertPoint.value] != []
      modifies this`tree, this`nodeIds, this`nextId
      ensures insertPoint.Some? ==>
        var ids := old(nodeIds)[insertPoint.value];
        && nodeIds == old(nodeIds) && nextId == old(nextId)
        && tree == old(tree)[nodeIds[i][|nodeIds[i]| - 1] := ids[if rank[i] + 1 < |ids| then rank[i] + 1 else |ids| - 1]]
      ensures insertPoint.None? ==>
        && tree == old(tree[nodeIds[i][|nodeIds[i]| - 1] := nextId][nodeIds[j][|nodeIds[j]| - 1] := nextId])
        && nodeIds == old(nodeIds[i := nodeIds[i] + [nextId]])
        && nextId == old(nextId) + 1
    {
      if insertPoint.Some? {
        var parentIds := nodeIds[insertPoint.value];
        var parentRankIdx := rank[i] + 1;
        if parentRankIdx >= |parentIds| {
          parentRankIdx := |parentIds| - 1;
        }
        tree := tree[nodeIds[i][|nodeIds[i]| - 1] := parentIds[parentRankIdx]];
        return;
      }
      tree := tree[nodeIds[i][|nodeIds[i]| - 1] := nextId];
      tree := tree[nodeIds[j][|nodeIds[j]| - 1] := nextId];
      nodeIds := nodeIds[i := nodeIds[i] + [nextId]];
      nextId := nextId + 1;
    }

    /** The first member of the full chain of `other` that outranks `lo`, with the rest of
        that chain. */
    method FirstAbove(lo: nat, other: nat) returns (insertPoint: nat, above: seq<nat>)
      requires Chained() && lo < |rank| && other < |rank| && rank[lo] < rank[Root(State(), other)]
      requires ChainFull(State(), other, parentChains[other])
      ensures insertPoint == Rep(State(), other, rank[lo] + 1) && FullWalk(State(), insertPoint, above)
    {
      hide ChainsOk, ChainOk, Shaped, Rep, Root, FullWalk, ChainFull, Parents;
      FindStops(State(), parentChains, other);
      var chain := parentChains[other];
      FullIsOk(State(), other, chain);
      ChainInRange(State(), other, chain);
      var higherRankIdx := RankBisectRight(chain, rank[lo]);
      InsertPoint(State(), other, chain, rank[lo], higherRankIdx);
      if higherRankIdx >= |chain| {
        higherRankIdx := |chain| - 1;
      }
      insertPoint, above := chain[higherRankIdx], chain[higherRankIdx..];
    }

    /** The unequal-rank half of `Union`: representative `lo` hangs from the first member of
        the full chain of `other` that outranks it. */
    method HangBelow(lo: nat, hi: nat, other: nat, ghost i: nat, ghost j: nat)
      requires Valid() && Ends(State(), i, j, lo, other) && hi == Root(State(), other) && rank[lo] < rank[hi]
      requires ChainFull(State(), other, parentChains[other])
      modifies this
      ensures Valid() && log == old(log) + [(i, j)]
      ensures State() == Join(old(State()), lo, other)
      ensures |rank| == old(|rank|) && |Roots(State())| == old(|Roots(State())|) - 1
      ensures WriteOnce(old(tree), tree)
    {
      hide Sound, Shaped, ChainsOk, Ends, Hangs, Join, Rep, Root, FullWalk, ChainFull, Extended, Parents, Roots, WriteOnce;
      ghost var f := State();
      UnequalStep(f, tree, log, i, j, lo, other);
      RootLeads(f, parentChains, hi);
      if parentChains[hi] == [] {
        assert false;
      }
      var insertPoint, above := FirstAbove(lo, other);
      HungChains(f, lo, insertPoint, parentChains, above);
      var extended := OrderedExtend(parentChains[lo], above);
      parentChains := parentChains[lo := extended];
      Build(lo, hi, Some(insertPoint));
      log := log + [(i, j)];
      assert State() == Join(f, lo, other);
    }

    /** The equal-rank half of `Union`: `hi`, the root of i, grows and takes `lo`. */
    method Absorb(hi: nat, lo: nat, i: nat, ghost j: nat)
      requires Valid() && Ends(State(), i, j, lo, i) && hi == Root(State(), i) && rank[lo] == rank[hi]
      requires ChainFull(State(), i, parentChains[i])
      modifies this
      ensures Valid() && log == old(log) + [(i, j)]
      ensures State() == Join(old(State()), lo, i)
      ensures |rank| == old(|rank|) && |Roots(State())| == old(|Roots(State())|) - 1
      ensures WriteOnce(old(tree), tree)
    {
      hide Sound, Shaped, ChainsOk, Ends, Hangs, Join, Rep, Root, FullWalk, ChainFull, Extended, Parents, Roots, WriteOnce;
      ghost var f := State();
      EqualStep(f, tree, log, i, j, lo, hi);
      GrowChains(f, hi, parentChains);
      WinnerChain(f, parentChains, i, hi);
      HungChains(Grow(f, hi), lo, hi, parentChains[hi := [hi]], [hi]);
      if parentChains[hi] == [] {
        parentChains := parentChains[hi := [hi]];
      }
      assert parentChains == old(parentChains)[hi := [hi]];
      var chain := parentChains[i];
      var extended := OrderedExtend(parentChains[lo], if chain == [] then [] else chain[|chain| - 1..]);
      parentChains := parentChains[lo := extended];
      rank := rank[hi := rank[hi] + 1];
      Build(hi, lo, None);
      log := log + [(i, j)];
      assert State() == Join(f, lo, i);
    }

    /** Merges the components of two leaves; true exactly when they were separate. */
    method Union(i: nat, j: nat) returns (merged: bool)
      requires Valid() && i < |rank| && j < |rank|
      modifies this
      ensures Valid() && log == old(log) + [(i, j)]
      ensures merged <==> !Linked(old(log), i, j)
      ensures |rank| == old(|rank|)
      ensures |Roots(State())| == old(|Roots(State())|) - if merged then 1 else 0
      ensures WriteOnce(old(tree), tree)
    {
      hide Sound, Shaped, ChainsOk, Ends, Join, Rep, Root, ChainFull, Answers, Roots, Linked, Parents;
      ghost var f := State();
      UnionCases(f, tree, log, i, j);
      var chainI := Find(i);
      AnswerEndsInRoot(f, i, chainI);
      var chainJ := Find(j);
      AnswerEndsInRoot(f, j, chainJ);
      var rootI, rootJ := chainI[|chainI| - 1], chainJ[|chainJ| - 1];
      if rootI == rootJ {
        log := log + [(i, j)];
        return false;
      }
      if rank[rootI] < rank[rootJ] {
        HangBelow(rootI, rootJ, j, i, j);
      } else if rank[rootI] > rank[rootJ] {
        HangBelow(rootJ, rootI, i, i, j);
      } else {
        Absorb(rootI, rootJ, i, j);
      }
      return true;
    }

    /** The `tree` property: the part of the array that is in use. */
    method Tree() returns (used: seq<int>)
      requires Valid()
      ensures nextId <= |tree| && used == tree[..nextId]
    {
      hide Labelled, Covered, Paired, Heavy, Refines, Roots;
      used := tree[..nextId];
    }
  }
}
