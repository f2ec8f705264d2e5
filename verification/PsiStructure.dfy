/** `_build_psi_structure` and `_build_psi_layers` end to end: from chunks to tree to layers. */
module PsiStructure {
  import opened LayerRanges
  import opened MergeHierarchy
  import opened RaptorChunks
  import opened PsiNodes
  import opened PsiBuild
  import opened PsiGrowth
  import opened PsiRecursive
  import opened PsiRebalance
  import opened PsiRegroup
  import opened PsiMaterialise
  import B = PsiBuckets
  import C = PsiClades
  import L = PsiLayers

  /** One leaf for each chunk: its position, its text, no links. */
  ghost predicate LeavesFor<E>(nodes: seq<PsiNode>, chunks: seq<Chunk<E>>)
    reads (set w | w in nodes)
  {
    |nodes| == |chunks| && forall i :: 0 <= i < |nodes| ==> LeafFor(nodes[i], i, chunks[i])
  }

  ghost predicate LeafFor<E>(node: PsiNode, i: nat, chunk: Chunk<E>)
    reads node
  {
    node.index == i && node.text == chunk.text && node.children == [] && node.parent == null
  }

  lemma {:induction false} LeafShapesNodes(nodes: seq<PsiNode>)
    ensures NodesOf(LeafShapes(nodes)) == (set w | w in nodes) && LeavesOf(LeafShapes(nodes)) == nodes
    ensures BushyOf(LeafShapes(nodes))
    decreases |nodes|
  {
    hide Nodes, Leaves, Bushy;
    if nodes != [] {
      var ss := LeafShapes(nodes);
      assert ss[1..] == LeafShapes(nodes[1..]) && ss[0] == Shape(nodes[0], []);
      LeafShapesNodes(nodes[1..]);
      LeafTree(nodes[0]);
      FirstAndRest(nodes);
    }
  }

  lemma FirstAndRest(nodes: seq<PsiNode>)
    requires nodes != []
    ensures (set w | w in nodes) == {nodes[0]} + (set w | w in nodes[1..]) && nodes == [nodes[0]] + nodes[1..]
  {
    forall w | w in nodes && w != nodes[0] ensures w in nodes[1..] {
      var i :| 0 <= i < |nodes| && nodes[i] == w;
      assert nodes[1..][i - 1] == w;
    }
  }

  lemma LeafTree(w: PsiNode)
    ensures var s := Shape(w, []); Nodes(s) == {w} && Leaves(s) == [w] && Bushy(s)
  {
  }

  /** Fresh leaves are a grove of trees of one node. */
  lemma LeavesAreGrove<E>(nodes: seq<PsiNode>, chunks: seq<Chunk<E>>)
    requires LeavesFor(nodes, chunks)
    ensures Grove(LeafShapes(nodes), |nodes|) && Heads(LeafShapes(nodes)) == nodes
    ensures NodesOf(LeafShapes(nodes)) == (set w | w in nodes) && LeavesOf(LeafShapes(nodes)) == nodes
  {
    LeafShapesNodes(nodes);
    LeavesSeparate(nodes, chunks);
    LeavesLinked(nodes, chunks);
    LeavesIndexed(nodes, chunks);
    hide NodesOf, LeavesOf, ProperOf, BushyOf, AllInHeap, Indexed, LeavesFor;
    assert Heads(LeafShapes(nodes)) == nodes;
  }

  lemma LeavesSeparate<E>(nodes: seq<PsiNode>, chunks: seq<Chunk<E>>)
    requires LeavesFor(nodes, chunks)
    ensures ProperOf(LeafShapes(nodes))
  {
    hide LeafFor, Nodes, Proper;
    var ss := LeafShapes(nodes);
    forall i | 0 <= i < |nodes| ensures Proper(ss[i]) { LeafProper(nodes[i]); }
    forall i, j | 0 <= i < j < |nodes| ensures Nodes(ss[i]) !! Nodes(ss[j]) {
      LeafIndex(nodes[i], i, chunks[i]);
      LeafIndex(nodes[j], j, chunks[j]);
      LeafTree(nodes[i]);
      LeafTree(nodes[j]);
    }
    ProperOfIntro(ss);
  }

  lemma LeafProper(w: PsiNode)
    ensures Proper(Shape(w, []))
  {
  }

  lemma LeavesLinked<E>(nodes: seq<PsiNode>, chunks: seq<Chunk<E>>)
    requires LeavesFor(nodes, chunks)
    ensures AllInHeap(LeafShapes(nodes))
    ensures forall i :: 0 <= i < |nodes| ==> LeafShapes(nodes)[i].node.parent == null
  {
    hide LeafFor;
    var ss := LeafShapes(nodes);
    forall i | 0 <= i < |nodes| ensures InHeap(ss[i]) && ss[i].node.parent == null {
      LeafIndex(nodes[i], i, chunks[i]);
    }
    AllInHeapIntro(ss);
  }

  lemma LeavesIndexed<E>(nodes: seq<PsiNode>, chunks: seq<Chunk<E>>)
    requires LeavesFor(nodes, chunks)
    ensures Indexed((set w | w in nodes), |nodes|)
  {
    forall i | 0 <= i < |nodes| ensures nodes[i].index == i { LeafIndex(nodes[i], i, chunks[i]); }
  }

  lemma LeafIndex<E>(node: PsiNode, i: nat, chunk: Chunk<E>)
    requires LeafFor(node, i, chunk)
    ensures node.index == i && node.children == [] && node.parent == null
  {
  }

  /** `[_PsiTreeNode(index=i, text=text, ...) for i, (text, embd) in enumerate(chunks)]`. */
  method MakeLeaves<E>(chunks: seq<Chunk<E>>) returns (leaves: seq<PsiNode>)
    ensures LeavesFor(leaves, chunks) && forall w :: w in leaves ==> fresh(w)
  {
    leaves := [];
    for i := 0 to |chunks|
      invariant |leaves| == i && forall j :: 0 <= j < i ==> LeafFor(leaves[j], j, chunks[j])
      invariant forall w :: w in leaves ==> fresh(w)
    {
      var leaf := new PsiNode(i, chunks[i].text, []);
      leaves := leaves + [leaf];
    }
  }

  // ------------------------------------------------- climbing, told on the shape

  /** The parent of w among the trees that hang below `node`. */
  ghost function Above(ss: seq<Shape>, node: PsiNode, w: PsiNode): PsiNode {
    if ss == [] then node
    else if w == ss[0].node then node
    else if w in NodesOf(ss[0].kids) then Above(ss[0].kids, ss[0].node, w)
    else Above(ss[1..], node, w)
  }

  lemma {:induction false} ParentIsAbove(ss: seq<Shape>, node: PsiNode, w: PsiNode)
    requires AllInHeap(ss) && (forall i :: 0 <= i < |ss| ==> ss[i].node.parent == node) && w in NodesOf(ss)
    ensures w.parent == Above(ss, node, w)
    ensures Above(ss, node, w) == node || Above(ss, node, w) in NodesOf(ss)
    decreases ss
  {
    if w != ss[0].node {
      if w in NodesOf(ss[0].kids) {
        ParentIsAbove(ss[0].kids, ss[0].node, w);
      } else {
        ParentIsAbove(ss[1..], node, w);
      }
    }
  }

  /** k parents up in the shape, staying at the root. */
  ghost function Lift(s: Shape, w: PsiNode, k: nat): PsiNode {
    if k == 0 then w else
    var above := Lift(s, w, k - 1);
    if above == s.node then above else Above(s.kids, s.node, above)
  }

  lemma {:induction false} RiseIsLift(root: PsiNode, s: Shape, w: PsiNode, k: nat)
    requires Tree(root, s) && w in Nodes(s)
    ensures Rise(w, k) == Lift(s, w, k) && Lift(s, w, k) in Nodes(s)
    decreases k
  {
    if k > 0 {
      RiseIsLift(root, s, w, k - 1);
      var above := Lift(s, w, k - 1);
      if above != s.node {
        ParentIsAbove(s.kids, s.node, above);
      }
    }
  }

  ghost predicate LiftsBy(s: Shape, nodes: seq<PsiNode>, pairs: seq<Pair>) {
    forall k: nat, x: nat, y: nat :: x < |nodes| && y < |nodes| ==>
      (Lift(s, nodes[x], k) == Lift(s, nodes[y], k) <==> Meet(pairs, k, x, y))
  }

  /** Whether nodes climb by a ranking is decided by the shape. */
  lemma ClimbsIsLifts(root: PsiNode, s: Shape, nodes: seq<PsiNode>, pairs: seq<Pair>)
    requires Tree(root, s) && forall w :: w in nodes ==> w in Nodes(s)
    ensures ClimbsBy(nodes, pairs) <==> LiftsBy(s, nodes, pairs)
  {
    hide Meet, Rise, Lift, Tree, Nodes;
    forall k: nat, x: nat | x < |nodes| ensures Rise(nodes[x], k) == Lift(s, nodes[x], k) {
      RiseIsLift(root, s, nodes[x], k);
    }
  }

  // ------------------------------------------------- the finished tree and how it was built

  /** The finished tree is the built one with its child lists regrouped: every node of the
      built tree keeps exactly its leaves, all others are new, and where the built tree is
      within the limit it is the finished one. */
  ghost predicate Finished(shape: Shape, built: Shape, limit: nat)
    requires limit >= 2
  {
    && FormOf(shape, Nodes(built)) == Regrouped(built, limit)
    && Named(Clades(shape), Nodes(built)) == Clades(built) && Clades(built) <= Clades(shape)
    && (Fan(built, limit) ==> shape == built)
  }

  /** Up to the exact limit: the leaves that the ranking makes meet leaf x at level k are, for
      every x and k, exactly the leaves of one node. */
  ghost predicate RankedNodes(shape: Shape, leaves: seq<PsiNode>, cfg: Settings) {
    1 < |leaves| <= cfg.exactMaxLeaves ==>
      forall k: nat, x: nat :: x < |leaves| ==> C.HasClade(shape, LeavesMeeting(leaves, cfg.rank(B.Positions(|leaves|)), k, x))
  }

  /** Beyond it: the same within each of the buckets that the clustering gives, with the
      ranking of that bucket. */
  ghost predicate BucketNodes(shape: Shape, leaves: seq<PsiNode>, cfg: Settings, growth: Growth)
    requires cfg.bucketSize >= 2
  {
    |leaves| > cfg.exactMaxLeaves ==>
      && growth.Bucketed? && B.Bucketing(growth.buckets, |leaves|, cfg.bucketSize, cfg.cluster(B.Positions(|leaves|)))
      && forall i: nat, k: nat, x: nat :: i < |growth.buckets| && 1 < |growth.buckets[i]| && x < |growth.buckets[i]| ==>
           && InLeaves(growth.buckets[i], |leaves|)
           && C.HasClade(shape, LeavesMeeting(At(leaves, growth.buckets[i]), cfg.rank(growth.buckets[i]), k, x))
  }

  ghost predicate InLeaves(bucket: seq<nat>, n: nat) {
    forall j :: 0 <= j < |bucket| ==> bucket[j] < n
  }

  lemma IndexedLeaves(leaves: seq<PsiNode>)
    requires forall i :: 0 <= i < |leaves| ==> leaves[i].index == i
    ensures Indices(leaves) == B.Positions(|leaves|)
    ensures forall b: seq<nat> {:trigger InLeaves(b, |leaves|)} :: InLeaves(b, |leaves|) ==> Indices(At(leaves, b)) == b
  {
  }

  lemma RankedIn(shape: Shape, leaves: seq<PsiNode>, cfg: Settings, growth: Growth)
    requires Usable(cfg) && Grows(cfg, growth) && growth.inputs == LeafShapes(leaves) && Clades(growth.tree) <= Clades(shape)
    requires forall i :: 0 <= i < |leaves| ==> leaves[i].index == i
    ensures RankedNodes(shape, leaves, cfg)
  {
    IndexedLeaves(leaves);
    hide Clades, Grows, LeavesMeeting, LeafShapes, C.HasClade;
    if 1 < |leaves| <= cfg.exactMaxLeaves {
      forall k: nat, x: nat | x < |leaves|
        ensures C.HasClade(shape, LeavesMeeting(leaves, cfg.rank(B.Positions(|leaves|)), k, x))
      {
        FewLeaves(cfg, growth, leaves, k, x);
        MoreClades(growth.tree, shape, LeavesMeeting(leaves, cfg.rank(B.Positions(|leaves|)), k, x));
      }
    }
  }

  lemma BucketsIn(shape: Shape, leaves: seq<PsiNode>, cfg: Settings, growth: Growth)
    requires Usable(cfg) && Grows(cfg, growth) && growth.inputs == LeafShapes(leaves) && Clades(growth.tree) <= Clades(shape)
    requires forall i :: 0 <= i < |leaves| ==> leaves[i].index == i
    ensures BucketNodes(shape, leaves, cfg, growth)
  {
    IndexedLeaves(leaves);
    if |leaves| > cfg.exactMaxLeaves {
      assert Heads(LeafShapes(leaves)) == leaves;
      hide Clades, LeavesMeeting, LeafShapes, C.HasClade, B.Bucketing;
      forall i: nat, k: nat, x: nat | i < |growth.buckets| && 1 < |growth.buckets[i]| && x < |growth.buckets[i]|
        ensures InLeaves(growth.buckets[i], |leaves|)
        ensures C.HasClade(shape, LeavesMeeting(At(leaves, growth.buckets[i]), cfg.rank(growth.buckets[i]), k, x))
      {
        BucketLeaves(cfg, growth, leaves, i, k, x);
        assert InLeaves(growth.buckets[i], |leaves|);
        MoreClades(growth.tree, shape, LeavesMeeting(At(leaves, growth.buckets[i]), cfg.rank(growth.buckets[i]), k, x));
      }
    }
  }

  /** `_build_psi_structure`: one linked bushy tree over all chunks within the fanout limit.
      `growth` is how the tree was built before it was rebalanced. */
  method BuildStructure<E>(chunks: seq<Chunk<E>>, cfg: Settings, maxCluster: int)
    returns (root: PsiNode, leaves: seq<PsiNode>, ghost shape: Shape, ghost growth: Growth)
    requires chunks != [] && Usable(cfg)
    ensures Tree(root, shape) && Fan(shape, Limit(maxCluster))
    ensures |leaves| == |chunks| && multiset(Leaves(shape)) == multiset(leaves)
    ensures forall i :: 0 <= i < |leaves| ==> leaves[i].index == i && leaves[i].text == chunks[i].text
    ensures exists high :: Indexed(Nodes(shape), high)
    ensures forall w :: w in Nodes(shape) ==> fresh(w)
    ensures Grows(cfg, growth) && growth.inputs == LeafShapes(leaves) && Finished(shape, growth.tree, Limit(maxCluster))
    ensures RankedNodes(shape, leaves, cfg) && BucketNodes(shape, leaves, cfg, growth)
    ensures 1 < |chunks| <= cfg.exactMaxLeaves && Fan(growth.tree, Limit(maxCluster)) ==>
      ClimbsBy(leaves, cfg.rank(B.Positions(|chunks|)))
  {
    hide Nodes, NodesOf, Leaves, LeavesOf, Indexed, Tree, Fan, LeafShapes, Usable, Grove, LeavesFor, Grows, Finished, ClimbsBy,
      RankedNodes, BucketNodes;
    leaves := MakeLeaves(chunks);
    ghost var shapes := LeafShapes(leaves);
    LeavesAreGrove(leaves, chunks);
    LeafValues(leaves, chunks);
    IndexedLeaves(leaves);
    ghost var high;
    if |leaves| == 1 {
      root, shape := leaves[0], shapes[0];
      OneLeaf(leaves, chunks, Limit(maxCluster));
      growth := LoneGrowth(leaves, cfg, Limit(maxCluster));
    } else {
      root, high, shape, growth := GrowTree(leaves, cfg, maxCluster, shapes);
    }
    FinishedClades(shape, growth.tree, Limit(maxCluster));
    RankedIn(shape, leaves, cfg, growth);
    BucketsIn(shape, leaves, cfg, growth);
  }

  lemma FinishedClades(shape: Shape, built: Shape, limit: nat)
    requires limit >= 2 && Finished(shape, built, limit)
    ensures Clades(built) <= Clades(shape)
  {
  }

  lemma LoneGrowth(leaves: seq<PsiNode>, cfg: Settings, limit: nat) returns (g: Growth)
    requires |leaves| == 1 && Usable(cfg) && limit >= 2
    ensures Grows(cfg, g) && g.inputs == LeafShapes(leaves) && g.tree == LeafShapes(leaves)[0]
    ensures Finished(g.tree, g.tree, limit)
  {
    var s := LeafShapes(leaves)[0];
    g := Ranked([s], s);
    assert [s] == LeafShapes(leaves);
    assert FormOf(s, Nodes(s)) == Regrouped(s, limit);
    LeavesAreNodes(s);
    RegroupedTree(s, s, limit);
  }

  lemma LeafValues<E>(leaves: seq<PsiNode>, chunks: seq<Chunk<E>>)
    requires LeavesFor(leaves, chunks)
    ensures |leaves| == |chunks|
    ensures forall i :: 0 <= i < |leaves| ==> leaves[i].index == i && leaves[i].text == chunks[i].text
  {
    forall i | 0 <= i < |leaves| ensures leaves[i].index == i && leaves[i].text == chunks[i].text {
      assert LeafFor(leaves[i], i, chunks[i]);
    }
  }

  lemma OneLeaf<E>(leaves: seq<PsiNode>, chunks: seq<Chunk<E>>, limit: nat)
    requires |leaves| == 1 && LeavesFor(leaves, chunks)
    ensures var s := LeafShapes(leaves)[0];
      Tree(leaves[0], s) && Fan(s, limit) && multiset(Leaves(s)) == multiset(leaves)
      && Indexed(Nodes(s), 1) && Nodes(s) == (set w | w in leaves)
  {
    LeavesAreGrove(leaves, chunks);
  }

  /** Builds, then rebalances. */
  method GrowTree(leaves: seq<PsiNode>, cfg: Settings, maxCluster: int, ghost shapes: seq<Shape>)
    returns (root: PsiNode, nextIndex: nat, ghost shape: Shape, ghost growth: Growth)
    requires leaves != [] && leaves == Heads(shapes) && Grove(shapes, |leaves|) && Usable(cfg) && LeavesOf(shapes) == leaves
    modifies NodesOf(shapes)`children, NodesOf(shapes)`parent
    ensures Tree(root, shape) && Fan(shape, Limit(maxCluster)) && multiset(Leaves(shape)) == multiset(leaves)
    ensures Indexed(Nodes(shape), nextIndex)
    ensures forall w :: w in Nodes(shape) ==> w in NodesOf(shapes) || fresh(w)
    ensures Grows(cfg, growth) && growth.inputs == shapes && Finished(shape, growth.tree, Limit(maxCluster))
    ensures 1 < |leaves| <= cfg.exactMaxLeaves && Fan(growth.tree, Limit(maxCluster)) ==>
      ClimbsBy(leaves, cfg.rank(Indices(leaves)))
  {
    hide Nodes, NodesOf, Leaves, LeavesOf, Indexed, Tree, Fan, Usable, Grove, Grows, Clades, FormOf, Regrouped, Named, ClimbsBy, LiftsBy;
    HeadsAreNodes(shapes);
    var merges;
    root, nextIndex, merges, shape, growth := BuildFromNodes(leaves, |leaves|, cfg, shapes);
    TreeParts(root, shape);
    ghost var built := shape;
    LeavesOfTree(built, leaves);
    ClimbsIsLifts(root, built, leaves, cfg.rank(Indices(leaves)));
    root, nextIndex, shape := RebalanceTree(root, nextIndex, maxCluster, shape);
    if Fan(built, Limit(maxCluster)) {
      ClimbsIsLifts(root, built, leaves, cfg.rank(Indices(leaves)));
    }
  }

  lemma LeavesOfTree(s: Shape, leaves: seq<PsiNode>)
    requires multiset(Leaves(s)) == multiset(leaves)
    ensures forall w :: w in leaves ==> w in Nodes(s)
  {
    LeavesAreNodes(s);
    hide Leaves, Nodes;
    forall w | w in leaves ensures w in Nodes(s) {
      assert w in multiset(leaves);
    }
  }

  lemma TreeAgain(root: PsiNode, s: Shape)
    ensures Tree(root, s) <==> s.node == root && root.parent == null && Proper(s) && Bushy(s) && InHeap(s)
  {
  }

  lemma TreeParts(root: PsiNode, shape: Shape)
    requires Tree(root, shape)
    ensures NodesOf(shape.kids) <= Nodes(shape)
  {
  }

  /** Texts of the leaves are texts of the chunks. */
  lemma LeafTexts<E>(t: Texts, shape: Shape, leaves: seq<PsiNode>, chunks: seq<Chunk<E>>)
    requires multiset(Leaves(shape)) == multiset(leaves) && |leaves| == |chunks|
    requires t.Keys == Nodes(shape) && forall i :: 0 <= i < |chunks| ==> chunks[i].text != ""
    requires forall i :: 0 <= i < |leaves| ==> TextOf(t, leaves[i]) == chunks[i].text
    ensures |Leaves(shape)| == |chunks| && LeavesHaveText(t, shape)
  {
    assert |multiset(Leaves(shape))| == |multiset(leaves)|;
    forall w | w in Leaves(shape) ensures TextOf(t, w) != "" {
      assert w in multiset(leaves);
      var i :| 0 <= i < |leaves| && leaves[i] == w;
    }
  }

  /** No layer holds a leaf, so no leaf gets another text. */
  lemma LeafTextsStay<E>(was: Texts, t: Texts, s: Shape, m: nat, leaves: seq<PsiNode>, summarise: Summariser<E>)
    requires Proper(s) && SettledUpTo(was, t, s, m, summarise) && multiset(Leaves(s)) == multiset(leaves)
    ensures forall i :: 0 <= i < |leaves| ==> TextOf(t, leaves[i]) == TextOf(was, leaves[i])
  {
    hide Leaves, Nodes, Proper, L.Layer;
    LeavesInside(s, leaves);
    forall i | 0 <= i < |leaves| ensures TextOf(t, leaves[i]) == TextOf(was, leaves[i]) {
      assert leaves[i] in multiset(leaves);
      assert leaves[i] in Leaves(s);
      LeafUnlayered(s, leaves[i]);
      assert SettledAt(was, t, s, m, leaves[i], summarise);
    }
  }

  lemma LeavesInside(shape: Shape, leaves: seq<PsiNode>)
    requires multiset(Leaves(shape)) == multiset(leaves)
    ensures forall i :: 0 <= i < |leaves| ==> leaves[i] in Nodes(shape)
  {
    LeavesAreNodes(shape);
    forall i | 0 <= i < |leaves| ensures leaves[i] in Nodes(shape) {
      assert leaves[i] in multiset(leaves);
    }
  }

  /** `_build_psi_layers`. The original chunks stay a prefix; the ranges tile the result; at
      most n - 1 chunks are added, exactly one for each internal node when every summary
      succeeds, and then the last layer is the root alone. */
  method BuildLayers<E(!new)>(chunks: seq<Chunk<E>>, cfg: Settings, maxCluster: int, summarise: Summariser<E>)
    returns (out: seq<Chunk<E>>, ranges: seq<Range>, ghost shape: Shape, ghost leaves: seq<PsiNode>, ghost growth: Growth)
    requires chunks != [] && Usable(cfg)
    ensures |leaves| == |chunks| && multiset(Leaves(shape)) == multiset(leaves)
    ensures forall i :: 0 <= i < |leaves| ==> leaves[i].index == i && TextOf(TextsNow(Nodes(shape)), leaves[i]) == chunks[i].text
    ensures Grows(cfg, growth) && growth.inputs == LeafShapes(leaves) && Finished(shape, growth.tree, Limit(maxCluster))
    ensures RankedNodes(shape, leaves, cfg) && BucketNodes(shape, leaves, cfg, growth)
    ensures 1 < |chunks| <= cfg.exactMaxLeaves && Fan(growth.tree, Limit(maxCluster)) ==>
      ClimbsBy(leaves, cfg.rank(B.Positions(|chunks|)))
    ensures chunks <= out && Tiles(ranges, |chunks|, |out|) && |out| <= 2 * |chunks| - 1
    ensures InHeap(shape) && Proper(shape) && Bushy(shape) && Fan(shape, Limit(maxCluster)) && |Leaves(shape)| == |chunks|
    ensures out == chunks + Gathered(TextsNow(Nodes(shape)), shape, |ranges| - 1, summarise)
    ensures ranges == Ranges(|chunks|, TextsNow(Nodes(shape)), shape, |ranges| - 1, summarise)
    ensures SummariesGiven(TextsNow(Nodes(shape)), shape, |ranges| - 1, summarise)
    ensures AlwaysSucceeds(summarise) && (forall i :: 0 <= i < |chunks| ==> chunks[i].text != "") ==>
      && |out| == |chunks| + InternalCount(shape) && |ranges| == L.Tall(shape) + 1
      && (|chunks| > 1 ==> ranges[|ranges| - 1].1 == ranges[|ranges| - 1].0 + 1)
  {
    hide Nodes, NodesOf, Leaves, LeavesOf, Indexed, Fan, Usable, Gathered, Ranges, SettledUpTo, LayerChunks,
         AlwaysSucceeds, LeavesHaveText, InternalCount, Proper, Bushy, InHeap, L.Tall, Tiles, Grows, Finished, RankedNodes, BucketNodes,
         ClimbsBy, LiftsBy, Tree, SummariesHeld, SummariesGiven;
    var root, made;
    root, made, shape, growth := BuildStructure(chunks, cfg, maxCluster);
    leaves := made;
    LeavesInside(shape, leaves);
    ClimbsIsLifts(root, shape, leaves, cfg.rank(B.Positions(|chunks|)));
    TreeAgain(root, shape);
    ghost var was := TextsNow(Nodes(shape));
    ghost var reached;
    NodesAllocated(shape);
    out, ranges, reached := Materialise(root, chunks, summarise, shape);
    ghost var t := TextsNow(Nodes(shape));
    TreeAgain(root, shape);
    ClimbsIsLifts(root, shape, leaves, cfg.rank(B.Positions(|chunks|)));
    HeldGiven(was, t, shape, reached, summarise);
    LeafTextsStay(was, t, shape, reached, leaves, summarise);
    RangesCounted(|chunks|, t, shape, reached, summarise);
    MaterialisedSizes(was, t, shape, reached, |chunks|, summarise);
    assert |multiset(Leaves(shape))| == |multiset(leaves)|;
    ManyLeaves(shape);
    if forall i :: 0 <= i < |chunks| ==> chunks[i].text != "" {
      LeafTexts(was, shape, leaves, chunks);
    }
  }

  lemma {:induction false} RangesCounted<E>(n: nat, t: Texts, s: Shape, m: nat, summarise: Summariser<E>)
    ensures |Ranges(n, t, s, m, summarise)| == m + 1
    decreases m
  {
    if m > 0 {
      RangesCounted(n, t, s, m - 1, summarise);
    }
  }

  lemma ManyLeaves(s: Shape)
    ensures |Leaves(s)| > 1 ==> s.kids != []
  {
  }
}
