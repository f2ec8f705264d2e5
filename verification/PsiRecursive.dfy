/** `_build_psi_structure_from_nodes` and `_build_bucketed_psi_structure`: the mutual
    recursion that builds large trees bucket by bucket. */
module PsiRecursive {
  import opened MergeHierarchy
  import opened PsiNodes
  import opened PsiBuild
  import opened PsiExactBuild
  import opened PsiGrowth
  import B = PsiBuckets
  import C = PsiClades
  import TS = PsiTreeShape

  /** Separate linked trees without parents, with indices below `high`. */
  ghost predicate Grove(all: seq<Shape>, high: nat)
    reads NodesOf(all)
  {
    Forestry(Heads(all), all) && Indexed(NodesOf(all), high)
  }

  lemma HeadsAppend(a: seq<Shape>, b: seq<Shape>)
    ensures Heads(a + b) == Heads(a) + Heads(b)
  {
  }

  lemma ForestryAppend(a: seq<Shape>, b: seq<Shape>)
    ensures Forestry(Heads(a + b), a + b)
            <==> Forestry(Heads(a), a) && Forestry(Heads(b), b) && NodesOf(a) !! NodesOf(b)
  {
    NodesOfAppend(a, b);
    ProperOfAppend(a, b);
    BushyOfAppend(a, b);
    AllInHeapAppend(a, b);
    hide NodesOf, ProperOf, BushyOf, AllInHeap;
    var all := a + b;
    if forall i :: 0 <= i < |all| ==> all[i].node.parent == null {
      forall i | 0 <= i < |a| ensures a[i].node.parent == null { assert all[i] == a[i]; }
      forall i | 0 <= i < |b| ensures b[i].node.parent == null { assert all[|a| + i] == b[i]; }
    }
  }

  lemma IndexedAppend(a: set<PsiNode>, b: set<PsiNode>, known: set<PsiNode>, low: nat, high: nat)
    requires Indexed(known, low) && a <= known && Indexed(b, high) && low <= high
    requires forall w :: w in b ==> w in known || w.index >= low
    ensures Indexed(a + b, high)
  {
  }

  /** A segment of trees is replaced by the one tree built over it. */
  lemma ReplaceMiddle(ds: seq<Shape>, cur: seq<Shape>, rest: seq<Shape>, shape: Shape, low: nat, high: nat)
    requires Forestry(Heads(ds), ds) && Forestry(Heads(rest), rest)
    requires NodesOf(ds) !! NodesOf(rest) && NodesOf(ds) !! NodesOf(cur) && NodesOf(cur) !! NodesOf(rest)
    requires Indexed(NodesOf(ds + cur + rest), low) && low <= high
    requires Tree(shape.node, shape) && Indexed(Nodes(shape), high)
    requires forall w :: w in Nodes(shape) ==> w in NodesOf(cur) || w.index >= low
    ensures Grove(ds + [shape] + rest, high)
  {
    var all := NodesOf(ds + cur + rest);
    NodesOfAppend(ds, cur);
    NodesOfAppend(ds + cur, rest);
    Single(shape);
    NodesOfAppend(ds, [shape]);
    NodesOfAppend(ds + [shape], rest);
    hide NodesOf, Nodes;
    ShapeApart(ds, cur, rest, shape, low);
    SingleForestry(shape);
    ForestryAppend(ds, [shape]);
    ForestryAppend(ds + [shape], rest);
    IndexedAppend(NodesOf(ds) + NodesOf(rest), Nodes(shape), all, low, high);
    assert NodesOf(ds) + Nodes(shape) + NodesOf(rest) == NodesOf(ds) + NodesOf(rest) + Nodes(shape);
  }

  lemma SingleForestry(shape: Shape)
    requires Tree(shape.node, shape)
    ensures Forestry(Heads([shape]), [shape])
  {
    Single(shape);
  }

  /** New nodes have new indices, so the new tree meets none of the others. */
  lemma ShapeApart(ds: seq<Shape>, cur: seq<Shape>, rest: seq<Shape>, shape: Shape, low: nat)
    requires NodesOf(ds) !! NodesOf(rest) && NodesOf(ds) !! NodesOf(cur) && NodesOf(cur) !! NodesOf(rest)
    requires Indexed(NodesOf(ds + cur + rest), low)
    requires forall w :: w in Nodes(shape) ==> w in NodesOf(cur) || w.index >= low
    ensures NodesOf(ds) !! Nodes(shape) && NodesOf(rest) !! Nodes(shape)
  {
    NodesOfAppend(ds, cur);
    NodesOfAppend(ds + cur, rest);
    hide NodesOf, Nodes;
    forall w | w in Nodes(shape) ensures w !in NodesOf(ds) && w !in NodesOf(rest) { }
  }

  // ------------------------------------------------- buckets of trees

  /** Trees listed in another order, each once, are as separate as before. */
  lemma PickForestry(shapes: seq<Shape>, ps: seq<nat>, high: nat)
    requires Grove(shapes, high) && Permutes(ps, |shapes|)
    ensures (forall i :: 0 <= i < |ps| ==> ps[i] < |shapes|) && Grove(TS.Pick(shapes, ps), high)
    ensures NodesOf(TS.Pick(shapes, ps)) <= NodesOf(shapes)
    ensures multiset(LeavesOf(TS.Pick(shapes, ps))) == multiset(LeavesOf(shapes))
  {
    hide LeavesOf, ProperOf, BushyOf, AllInHeap, NodesOf, Permutes;
    PermutesInRange(ps, |shapes|);
    PickPermuted(shapes, ps);
    PickNodes(shapes, ps);
    PickProper(shapes, ps);
    PickLinked(shapes, ps);
  }

  lemma PickProper(shapes: seq<Shape>, ps: seq<nat>)
    requires ProperOf(shapes) && Permutes(ps, |shapes|) && forall i :: 0 <= i < |ps| ==> ps[i] < |shapes|
    ensures ProperOf(TS.Pick(shapes, ps))
  {
    hide Nodes, NodesOf, Proper, ProperOf;
    var picked := TS.Pick(shapes, ps);
    forall i | 0 <= i < |picked| ensures Proper(picked[i]) {
      ProperOfElim(shapes, ps[i], 0);
    }
    forall i, j | 0 <= i < j < |picked| ensures Nodes(picked[i]) !! Nodes(picked[j]) {
      ProperOfElim(shapes, ps[i], ps[j]);
      ProperOfElim(shapes, ps[j], ps[i]);
    }
    ProperOfIntro(picked);
  }

  lemma PickLinked(shapes: seq<Shape>, ps: seq<nat>)
    requires BushyOf(shapes) && AllInHeap(shapes) && forall i :: 0 <= i < |ps| ==> ps[i] < |shapes|
    ensures BushyOf(TS.Pick(shapes, ps)) && AllInHeap(TS.Pick(shapes, ps))
  {
    hide Bushy, BushyOf, InHeap, AllInHeap, NodesOf;
    var picked := TS.Pick(shapes, ps);
    forall i | 0 <= i < |picked| ensures Bushy(picked[i]) && InHeap(picked[i]) {
      BushyOfElim(shapes, ps[i]);
      AllInHeapElim(shapes, ps[i]);
    }
    BushyOfIntro(picked);
    AllInHeapIntro(picked);
  }

  lemma PickNodes(shapes: seq<Shape>, ps: seq<nat>)
    requires forall i :: 0 <= i < |ps| ==> ps[i] < |shapes|
    ensures NodesOf(TS.Pick(shapes, ps)) <= NodesOf(shapes)
  {
    forall w | w in NodesOf(TS.Pick(shapes, ps)) ensures w in NodesOf(shapes) {
      var i := InNodesOf(TS.Pick(shapes, ps), w);
      NodesOfMember(shapes, ps[i]);
    }
  }

  lemma CountedTwice(f: seq<nat>, i: nat, j: nat)
    requires i < j < |f| && f[i] == f[j]
    ensures multiset(f)[f[i]] >= 2
  {
    assert f == f[..j] + f[j..];
    assert f[..j][i] in multiset(f[..j]) && f[j..][0] in multiset(f[j..]);
  }

  /** Positions flattened from a covering are a permutation. */
  lemma CoveringPermutes(n: nat, buckets: seq<seq<nat>>, bucketSize: nat)
    requires B.Covering(n, [], buckets, bucketSize)
    ensures Permutes(B.Flatten(buckets), n)
  {
    B.CoveredOnce(n, buckets, bucketSize);
    var f := B.Flatten(buckets);
    forall i, j | 0 <= i < j < |f| ensures f[i] != f[j] {
      if f[i] == f[j] {
        CountedTwice(f, i, j);
      }
    }
    forall x: nat ensures x in f <==> x < n {
      assert x in f <==> x in multiset(f);
    }
  }

  // ------------------------------------------------- settings

  /** The clamps of the constructor; 0 stands for an unset value. */
  function Clamp(exactMaxLeaves: int, bucketSize: int): (r: (nat, nat))
    ensures 2 <= r.1 <= r.0
  {
    var e := if exactMaxLeaves == 0 then 4096 else exactMaxLeaves;
    var exact := if e < 2 then 2 else e;
    var b := if bucketSize == 0 then 1024 else bucketSize;
    var bucket := if b < 2 then 2 else b;
    (exact, if bucket < exact then bucket else exact)
  }

  /** The limits that result: unset values have defaults, small ones are raised to 2, and the
      bucket size is cut down to the exact limit. */
  lemma ClampIs(exactMaxLeaves: int, bucketSize: int)
    ensures Clamp(0, 0) == (4096, 1024)
    ensures 2 <= bucketSize <= exactMaxLeaves ==> Clamp(exactMaxLeaves, bucketSize) == (exactMaxLeaves, bucketSize)
    ensures 2 <= exactMaxLeaves <= bucketSize ==> Clamp(exactMaxLeaves, bucketSize) == (exactMaxLeaves, exactMaxLeaves)
    ensures exactMaxLeaves < 2 && exactMaxLeaves != 0 ==> Clamp(exactMaxLeaves, bucketSize) == (2, 2)
    ensures exactMaxLeaves >= 2 && bucketSize < 2 && bucketSize != 0 ==> Clamp(exactMaxLeaves, bucketSize) == (exactMaxLeaves, 2)
  {
  }

  // ------------------------------------------------- the mutual recursion

  /** The trees of the buckets from i on. */
  ghost function Rest(shapes: seq<Shape>, buckets: seq<seq<nat>>, i: nat): seq<Shape>
    requires i <= |buckets| && InRange(buckets, |shapes|)
  {
    FlattenInRange(buckets[i..], |shapes|);
    TS.Pick(shapes, B.Flatten(buckets[i..]))
  }

  ghost predicate InRange(buckets: seq<seq<nat>>, n: nat) {
    forall i, j :: 0 <= i < |buckets| && 0 <= j < |buckets[i]| ==> buckets[i][j] < n
  }

  lemma {:induction false} FlattenInRange(buckets: seq<seq<nat>>, n: nat)
    requires InRange(buckets, n)
    ensures forall i :: 0 <= i < |B.Flatten(buckets)| ==> B.Flatten(buckets)[i] < n
    decreases |buckets|
  {
    if buckets != [] {
      FlattenInRange(buckets[1..], n);
    }
  }

  lemma {:induction false} InFlatten(buckets: seq<seq<nat>>, i: nat, j: nat)
    requires i < |buckets| && j < |buckets[i]|
    ensures buckets[i][j] in B.Flatten(buckets)
    decreases |buckets|
  {
    if i > 0 {
      InFlatten(buckets[1..], i - 1, j);
    }
  }

  /** The trees still to do, split at the next bucket. */
  lemma RestStep(shapes: seq<Shape>, buckets: seq<seq<nat>>, i: nat)
    requires i < |buckets| && InRange(buckets, |shapes|)
    ensures Rest(shapes, buckets, i) == TS.Pick(shapes, buckets[i]) + Rest(shapes, buckets, i + 1)
    ensures Heads(TS.Pick(shapes, buckets[i])) == At(Heads(shapes), buckets[i])
  {
    assert buckets[i..][0] == buckets[i] && buckets[i..][1..] == buckets[i + 1..];
    assert B.Flatten(buckets[i..]) == buckets[i] + B.Flatten(buckets[i + 1..]);
  }

  lemma CoveringRange(n: nat, buckets: seq<seq<nat>>, bucketSize: nat)
    requires B.Covering(n, [], buckets, bucketSize)
    ensures InRange(buckets, n) && forall i :: 0 <= i < |buckets| ==> 0 < |buckets[i]| <= bucketSize
    ensures n > 0 ==> buckets != []
  {
    CoveringPermutes(n, buckets, bucketSize);
    forall i, j | 0 <= i < |buckets| && 0 <= j < |buckets[i]| ensures buckets[i][j] < n {
      InFlatten(buckets, i, j);
    }
    if n > 0 {
      assert 0 in B.Flatten(buckets);
    }
  }

  lemma LeavesReplaced(ds: seq<Shape>, cur: seq<Shape>, rest: seq<Shape>, shape: Shape)
    requires multiset(Leaves(shape)) == multiset(LeavesOf(cur))
    ensures multiset(LeavesOf(ds + [shape] + rest)) == multiset(LeavesOf(ds + (cur + rest)))
  {
    LeavesOfAppend(cur, rest);
    LeavesOfAppend(ds, cur + rest);
    LeavesOfAppend(ds, [shape]);
    LeavesOfAppend(ds + [shape], rest);
    Single(shape);
  }

  /** What a build over `nodes` gives back, apart from frame and freshness. */
  ghost predicate Built(root: PsiNode, shape: Shape, shapes: seq<Shape>, high: nat)
    reads Nodes(shape)
  {
    Tree(root, shape) && multiset(Leaves(shape)) == multiset(LeavesOf(shapes)) && Indexed(Nodes(shape), high)
  }

  /** Three disjoint parts of a grove, each a grove. */
  lemma Parts(ds: seq<Shape>, cur: seq<Shape>, rest: seq<Shape>, high: nat)
    requires Grove(ds + (cur + rest), high)
    ensures Grove(ds, high) && Grove(cur, high) && Grove(rest, high)
    ensures NodesOf(ds) !! NodesOf(rest) && NodesOf(ds) !! NodesOf(cur) && NodesOf(cur) !! NodesOf(rest)
    ensures NodesOf(ds + (cur + rest)) == NodesOf(ds) + NodesOf(cur) + NodesOf(rest)
    ensures Indexed(NodesOf(ds + cur + rest), high)
  {
    ForestryAppend(ds, cur + rest);
    ForestryAppend(cur, rest);
    NodesOfAppend(ds, cur + rest);
    NodesOfAppend(cur, rest);
    assert ds + cur + rest == ds + (cur + rest);
    hide NodesOf, ProperOf, BushyOf, AllInHeap, Forestry;
  }

  lemma HeadsAreNodes(ss: seq<Shape>)
    ensures forall w :: w in Heads(ss) ==> w in NodesOf(ss)
  {
  }

  /** Builds one tree over the given trees: exactly when they are few, through buckets when
      they are many. */
  method BuildFromNodes(nodes: seq<PsiNode>, nextIndex: nat, cfg: Settings, ghost shapes: seq<Shape>)
    returns (root: PsiNode, nextIndex': nat, merges: nat, ghost shape: Shape, ghost growth: Growth)
    requires nodes != [] && nodes == Heads(shapes) && Grove(shapes, nextIndex) && Usable(cfg)
    modifies (set w | w in nodes)`children, (set w | w in nodes)`parent
    ensures Built(root, shape, shapes, nextIndex') && merges == |nodes| - 1 && nextIndex' >= nextIndex
    ensures forall w :: w in Nodes(shape) ==> w in NodesOf(shapes) || (fresh(w) && w.index >= nextIndex)
    ensures root in nodes || fresh(root)
    ensures 1 < |nodes| <= cfg.exactMaxLeaves ==> ClimbsBy(nodes, cfg.rank(Indices(nodes)))
    ensures Grows(cfg, growth) && growth.inputs == shapes && growth.tree == shape
    decreases |nodes|, 3
  {
    hide Indexed, IsRanking, ClimbsBy, C.ByMeetings;
    if |nodes| <= cfg.exactMaxLeaves {
      root, nextIndex', merges, shape := BuildExact(nodes, nextIndex, cfg.rank(Indices(nodes)), shapes);
      growth := Ranked(shapes, shape);
    } else {
      root, nextIndex', merges, shape, growth := BuildBucketed(nodes, nextIndex, cfg, shapes);
    }
  }

  method BuildBucketed(nodes: seq<PsiNode>, nextIndex: nat, cfg: Settings, ghost shapes: seq<Shape>)
    returns (root: PsiNode, nextIndex': nat, merges: nat, ghost shape: Shape, ghost growth: Growth)
    requires nodes == Heads(shapes) && Grove(shapes, nextIndex) && Usable(cfg) && |nodes| > cfg.exactMaxLeaves
    modifies (set w | w in nodes)`children, (set w | w in nodes)`parent
    ensures Built(root, shape, shapes, nextIndex') && merges == |nodes| - 1 && nextIndex' >= nextIndex
    ensures forall w :: w in Nodes(shape) ==> w in NodesOf(shapes) || (fresh(w) && w.index >= nextIndex)
    ensures root in nodes || fresh(root)
    ensures Grows(cfg, growth) && growth.inputs == shapes && growth.tree == shape
    decreases |nodes|, 2
  {
    hide Indexed, B.Covering, B.Ordered, B.Cuts, Grove, IsRanking, Nodes, NodesOf, Leaves, LeavesOf, Built, Grows, PartOf;
    NodesOfAllocated(shapes);
    var buckets := B.SplitBuckets(|nodes|, cfg.bucketSize, cfg.cluster(Indices(nodes)));
    CoveringRange(|nodes|, buckets, cfg.bucketSize);
    var roots;
    ghost var ds, parts;
    roots, nextIndex', merges, ds, parts := BuildBuckets(nodes, nextIndex, cfg, buckets, shapes);
    if |roots| == 1 {
      root, shape := roots[0], ds[0];
      OneTree(ds, shapes, nextIndex');
      growth := OneBucket(cfg, shapes, buckets, parts, shape);
      return;
    }
    var rootMerges;
    ghost var top;
    root, nextIndex', rootMerges, shape, top := BuildFromNodes(roots, nextIndex', cfg, ds);
    BuiltOver(root, shape, ds, shapes, nextIndex');
    growth := Bucketed(shapes, shape, buckets, parts, top);
    BucketedGrows(cfg, growth);
    merges := merges + rootMerges;
  }

  lemma BucketedGrows(cfg: Settings, g: Growth)
    requires cfg.bucketSize >= 2 && g.Bucketed? && |g.inputs| > cfg.exactMaxLeaves && |g.parts| == |g.buckets|
    requires B.Bucketing(g.buckets, |g.inputs|, cfg.bucketSize, cfg.cluster(Indices(Heads(g.inputs))))
    requires forall i :: 0 <= i < |g.parts| ==> Grows(cfg, g.parts[i]) && PartOf(g.parts[i], g.inputs, g.buckets[i])
    requires Grows(cfg, g.top) && g.top.tree == g.tree && g.top.inputs == Trees(g.parts)
    ensures Grows(cfg, g)
  {
    hide B.Bucketing, PartOf;
  }

  /** A single bucket tree is the tree of its own stage. */
  lemma OneBucket(cfg: Settings, shapes: seq<Shape>, buckets: seq<seq<nat>>, parts: seq<Growth>, shape: Shape) returns (g: Growth)
    requires Usable(cfg) && |shapes| > cfg.exactMaxLeaves && |parts| == |buckets| == 1
    requires B.Bucketing(buckets, |shapes|, cfg.bucketSize, cfg.cluster(Indices(Heads(shapes))))
    requires forall i :: 0 <= i < |parts| ==> Grows(cfg, parts[i]) && PartOf(parts[i], shapes, buckets[i])
    requires Trees(parts) == [shape]
    ensures Grows(cfg, g) && g.inputs == shapes && g.tree == shape
  {
    hide B.Bucketing, PartOf;
    var top := Ranked([shape], shape);
    assert Grows(cfg, top);
    g := Bucketed(shapes, shape, buckets, parts, top);
    BucketedGrows(cfg, g);
  }

  lemma OneTree(ds: seq<Shape>, shapes: seq<Shape>, high: nat)
    requires |ds| == 1 && Grove(ds, high) && multiset(LeavesOf(ds)) == multiset(LeavesOf(shapes))
    ensures Built(ds[0].node, ds[0], shapes, high) && Nodes(ds[0]) == NodesOf(ds)
  {
    assert ds == [ds[0]];
    Single(ds[0]);
  }

  lemma BuiltOver(root: PsiNode, shape: Shape, ds: seq<Shape>, shapes: seq<Shape>, high: nat)
    requires Built(root, shape, ds, high) && multiset(LeavesOf(ds)) == multiset(LeavesOf(shapes))
    ensures Built(root, shape, shapes, high)
  {
  }

  /** The loop over the buckets. */
  method BuildBuckets(nodes: seq<PsiNode>, nextIndex: nat, cfg: Settings, buckets: seq<seq<nat>>, ghost shapes: seq<Shape>)
    returns (roots: seq<PsiNode>, nextIndex': nat, merges: nat, ghost ds: seq<Shape>, ghost parts: seq<Growth>)
    requires nodes == Heads(shapes) && Grove(shapes, nextIndex) && Usable(cfg) && |nodes| > cfg.exactMaxLeaves
    requires B.Covering(|nodes|, [], buckets, cfg.bucketSize)
    modifies (set w | w in nodes)`children, (set w | w in nodes)`parent
    ensures roots == Heads(ds) && |ds| == |buckets| && Grove(ds, nextIndex')
    ensures multiset(LeavesOf(ds)) == multiset(LeavesOf(shapes))
    ensures merges == |nodes| - |buckets| && nextIndex' >= nextIndex
    ensures forall w :: w in NodesOf(ds) ==> w in NodesOf(shapes) || (fresh(w) && w.index >= nextIndex)
    ensures forall w :: w in roots ==> w in nodes || fresh(w)
    ensures |parts| == |buckets| && Trees(parts) == ds
    ensures forall i :: 0 <= i < |parts| ==> Grows(cfg, parts[i]) && PartOf(parts[i], shapes, buckets[i])
    decreases |nodes|, 1
  {
    hide Grows, PartOf, Indexed, B.Covering, Grove, IsRanking, Nodes, NodesOf, Leaves, LeavesOf, B.Flatten, Rest, InRange;
    roots, nextIndex', merges, ds, parts := [], nextIndex, 0, [], [];
    CoveringRange(|nodes|, buckets, cfg.bucketSize);
    RestStart(shapes, buckets, nextIndex, cfg.bucketSize);
    for i := 0 to |buckets|
      invariant roots == Heads(ds) && |ds| == i && Grove(ds + Rest(shapes, buckets, i), nextIndex')
      invariant multiset(LeavesOf(ds + Rest(shapes, buckets, i))) == multiset(LeavesOf(shapes))
      invariant merges == |nodes| - |Rest(shapes, buckets, i)| - i && nextIndex' >= nextIndex
      invariant forall w :: w in NodesOf(ds) ==> w in NodesOf(shapes) || (fresh(w) && w.index >= nextIndex)
      invariant forall w :: w in roots ==> w in nodes || fresh(w)
      invariant |parts| == i && Trees(parts) == ds
      invariant forall j :: 0 <= j < i ==> Grows(cfg, parts[j]) && PartOf(parts[j], shapes, buckets[j])
    {
      RestStep(shapes, buckets, i);
      PickNodes(shapes, buckets[i]);
      var root, bucketMerges;
      ghost var shape, part;
      root, nextIndex', bucketMerges, shape, part := BuildNext(nodes, i, nextIndex', cfg, buckets, shapes, ds);
      NodesOfAppend(ds, [shape]);
      Single(shape);
      HeadsAppend(ds, [shape]);
      roots, merges, ds, parts := roots + [root], merges + bucketMerges, ds + [shape], parts + [part];
    }
    RestEnd(shapes, buckets);
    assert ds + [] == ds;
  }

  lemma RestStart(shapes: seq<Shape>, buckets: seq<seq<nat>>, high: nat, bucketSize: nat)
    requires Grove(shapes, high) && B.Covering(|shapes|, [], buckets, bucketSize) && InRange(buckets, |shapes|)
    ensures Grove([] + Rest(shapes, buckets, 0), high) && |Rest(shapes, buckets, 0)| == |shapes|
    ensures multiset(LeavesOf([] + Rest(shapes, buckets, 0))) == multiset(LeavesOf(shapes))
    ensures NodesOf([]) == {}
  {
    CoveringPermutes(|shapes|, buckets, bucketSize);
    B.CoveredOnce(|shapes|, buckets, bucketSize);
    assert buckets[0..] == buckets;
    PickForestry(shapes, B.Flatten(buckets), high);
    assert [] + Rest(shapes, buckets, 0) == Rest(shapes, buckets, 0);
  }

  lemma RestEnd(shapes: seq<Shape>, buckets: seq<seq<nat>>)
    requires InRange(buckets, |shapes|)
    ensures Rest(shapes, buckets, |buckets|) == []
  {
    assert buckets[|buckets|..] == [];
  }

  /** One bucket: its trees are replaced by one, all others stay as they are. */
  method BuildNext(nodes: seq<PsiNode>, i: nat, nextIndex: nat, cfg: Settings, buckets: seq<seq<nat>>,
                   ghost shapes: seq<Shape>, ghost ds: seq<Shape>)
    returns (root: PsiNode, nextIndex': nat, merges: nat, ghost shape: Shape, ghost part: Growth)
    requires nodes == Heads(shapes) && Usable(cfg) && InRange(buckets, |shapes|) && i < |buckets|
    requires 0 < |buckets[i]| <= cfg.bucketSize && |nodes| > cfg.exactMaxLeaves
    requires Grove(ds + Rest(shapes, buckets, i), nextIndex)
    modifies (set w | w in nodes)`children, (set w | w in nodes)`parent
    ensures Grove(ds + [shape] + Rest(shapes, buckets, i + 1), nextIndex')
    ensures multiset(LeavesOf(ds + [shape] + Rest(shapes, buckets, i + 1)))
            == multiset(LeavesOf(ds + Rest(shapes, buckets, i)))
    ensures merges == |buckets[i]| - 1 && nextIndex' >= nextIndex && shape.node == root
    ensures forall w :: w in Nodes(shape) ==>
      w in NodesOf(TS.Pick(shapes, buckets[i])) || (fresh(w) && w.index >= nextIndex)
    ensures root in nodes || fresh(root)
    ensures Grows(cfg, part) && PartOf(part, shapes, buckets[i]) && part.tree == shape
    decreases |nodes|, 0
  {
    ghost var cur, rest := TS.Pick(shapes, buckets[i]), Rest(shapes, buckets, i + 1);
    RestStep(shapes, buckets, i);
    hide Grows, Indexed, IsRanking, Nodes, NodesOf, Leaves, LeavesOf, B.Flatten, Rest, InRange, ProperOf, BushyOf, AllInHeap;
    Parts(ds, cur, rest, nextIndex);
    NodesOfAllocated(ds);
    NodesOfAllocated(rest);
    HeadsAreNodes(cur);
    var bucket := At(nodes, buckets[i]);
    root, nextIndex', merges, shape, part := BuildFromNodes(bucket, nextIndex, cfg, cur);
    ReplaceMiddle(ds, cur, rest, shape, nextIndex, nextIndex');
    LeavesReplaced(ds, cur, rest, shape);
  }
}
