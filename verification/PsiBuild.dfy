/** The exact build as a whole: from a list of subtrees and a ranking to one tree. */
module PsiBuild {
  import opened MergeHierarchy
  import opened PsiForest
  import opened PsiTree
  import opened PsiInvariant
  import opened PsiUnionFind
  import opened PsiNodes
  import opened PsiExact
  import opened PsiExactBuild
  import C = PsiClades
  import TS = PsiTreeShape

  // ------------------------------------------------- leaves

  ghost predicate Permutes(ps: seq<nat>, n: nat) {
    TS.NoRepeat(ps) && forall x: nat :: x in ps <==> x < n
  }

  lemma PickAppend(shapes: seq<Shape>, a: seq<nat>, b: seq<nat>)
    requires forall i :: 0 <= i < |a| ==> a[i] < |shapes|
    requires forall i :: 0 <= i < |b| ==> b[i] < |shapes|
    ensures LeavesOf(TS.Pick(shapes, a + b)) == LeavesOf(TS.Pick(shapes, a)) + LeavesOf(TS.Pick(shapes, b))
  {
    assert TS.Pick(shapes, a + b) == TS.Pick(shapes, a) + TS.Pick(shapes, b);
    LeavesOfAppend(TS.Pick(shapes, a), TS.Pick(shapes, b));
  }

  lemma PermutesInRange(ps: seq<nat>, n: nat)
    requires Permutes(ps, n)
    ensures forall i :: 0 <= i < |ps| ==> ps[i] < n
  {
    forall i | 0 <= i < |ps| ensures ps[i] < n { assert ps[i] in ps; }
  }

  lemma DropLast(ps: seq<nat>, n: nat, at: nat)
    requires Permutes(ps, n + 1) && at < |ps| && ps[at] == n
    ensures Permutes(ps[..at] + ps[at + 1..], n)
  {
    var qs := ps[..at] + ps[at + 1..];
    forall i, j | 0 <= i < j < |qs| ensures qs[i] != qs[j] {
      assert qs[i] == ps[if i < at then i else i + 1] && qs[j] == ps[if j < at then j else j + 1];
    }
    forall x: nat ensures x in qs <==> x < n {
      if x in qs {
        var i :| 0 <= i < |qs| && qs[i] == x;
        assert qs[i] == ps[if i < at then i else i + 1];
        assert x in ps;
      }
      if x < n {
        assert x in ps;
        var i :| 0 <= i < |ps| && ps[i] == x;
        assert x == qs[if i < at then i else i - 1];
      }
    }
  }

  lemma EmptyPermutes(ps: seq<nat>)
    requires Permutes(ps, 0)
    ensures ps == []
  {
    var first := if ps == [] then 0 else ps[0];
    PermutesInRange(ps, 0);
    assert ps == [] || first < 0;
  }

  lemma SplitAtLast(ps: seq<nat>, n: nat) returns (a: seq<nat>, b: seq<nat>)
    requires Permutes(ps, n + 1)
    ensures ps == a + ([n] + b) && Permutes(a + b, n)
    ensures forall i :: 0 <= i < |a| ==> a[i] < n
    ensures forall i :: 0 <= i < |b| ==> b[i] < n
  {
    assert n in ps;
    var at :| 0 <= at < |ps| && ps[at] == n;
    a, b := ps[..at], ps[at + 1..];
    DropLast(ps, n, at);
    PermutesInRange(a + b, n);
    forall i | 0 <= i < |a| ensures a[i] < n { assert (a + b)[i] == a[i]; }
    forall i | 0 <= i < |b| ensures b[i] < n { assert (a + b)[|a| + i] == b[i]; }
  }

  /** The leaves of one shape taken out of a list of shapes. */
  lemma PullOut(shapes: seq<Shape>, a: seq<nat>, n: nat, b: seq<nat>)
    requires n < |shapes|
    requires forall i :: 0 <= i < |a| ==> a[i] < |shapes|
    requires forall i :: 0 <= i < |b| ==> b[i] < |shapes|
    ensures multiset(LeavesOf(TS.Pick(shapes, a + ([n] + b))))
            == multiset(LeavesOf(TS.Pick(shapes, a + b))) + multiset(Leaves(shapes[n]))
  {
    hide LeavesOf, Leaves;
    PickAppend(shapes, a, b);
    PickAppend(shapes, a, [n] + b);
    PickAppend(shapes, [n], b);
    assert TS.Pick(shapes, [n]) == [shapes[n]];
    Single(shapes[n]);
  }

  /** Listing the shapes in another order keeps their leaves. */
  lemma {:induction false} PickPermuted(shapes: seq<Shape>, ps: seq<nat>)
    requires Permutes(ps, |shapes|)
    ensures forall i :: 0 <= i < |ps| ==> ps[i] < |shapes|
    ensures multiset(LeavesOf(TS.Pick(shapes, ps))) == multiset(LeavesOf(shapes))
    decreases |shapes|
  {
    PermutesInRange(ps, |shapes|);
    if shapes == [] {
      EmptyPermutes(ps);
    } else {
      hide LeavesOf, Leaves, Permutes;
      var n := |shapes| - 1;
      var init := shapes[..n];
      var a, b := SplitAtLast(ps, n);
      PickPermuted(init, a + b);
      PickSmaller(shapes, init, a + b);
      PullOut(shapes, a, n, b);
      Single(shapes[n]);
      LeavesOfAppend(init, [shapes[n]]);
      assert shapes == init + [shapes[n]];
    }
  }

  lemma PickSmaller(shapes: seq<Shape>, init: seq<Shape>, ps: seq<nat>)
    requires init <= shapes && forall i :: 0 <= i < |ps| ==> ps[i] < |init|
    ensures TS.Pick(shapes, ps) == TS.Pick(init, ps)
  {
  }

  // ------------------------------------------------- what a build takes and gives

  /** Indices below `high`, all different. */
  ghost predicate Indexed(ns: set<PsiNode>, high: nat) {
    (forall w :: w in ns ==> w.index < high) && (forall v, w :: v in ns && w in ns && v.index == w.index ==> v == w)
  }

  /** Separate bushy trees with the given roots, none of which has a parent. */
  ghost predicate Forestry(nodes: seq<PsiNode>, shapes: seq<Shape>)
    reads NodesOf(shapes)
  {
    && nodes == Heads(shapes) && ProperOf(shapes) && BushyOf(shapes) && AllInHeap(shapes)
    && forall i :: 0 <= i < |shapes| ==> shapes[i].node.parent == null
  }

  /** One bushy tree over the leaves of all of them. */
  ghost predicate Tree(root: PsiNode, shape: Shape)
    reads Nodes(shape)
  {
    shape.node == root && root.parent == null && Proper(shape) && Bushy(shape) && InHeap(shape)
  }

  /** k parent links up from a node, staying at a root. */
  ghost function Rise(node: PsiNode, k: nat): PsiNode
    reads *
  {
    if k == 0 then node else
    var above := Rise(node, k - 1);
    if above.parent == null then above else above.parent
  }

  /** Parent links of the nodes follow the first m entries of the array. */
  ghost predicate Follows(local: map<nat, PsiNode>, tree: seq<int>, m: nat)
    reads local.Values
  {
    && m <= |tree| && (forall id: nat :: id < m ==> id in local)
    && (forall c: nat {:trigger tree[c]} :: c < m ==> tree[c] < m)
    && (forall c: nat {:trigger local[c]} :: c < m ==>
         local[c].parent == if tree[c] >= 0 then local[tree[c] as nat] else null)
  }

  lemma {:induction false} RiseIsClimb(local: map<nat, PsiNode>, tree: seq<int>, m: nat, x: nat, k: nat)
    requires Follows(local, tree, m) && x < m
    ensures Climb(tree, x, k) < m && Rise(local[x], k) == local[Climb(tree, x, k)]
    decreases k
  {
    if k > 0 {
      RiseIsClimb(local, tree, m, x, k - 1);
      var b := Climb(tree, x, k - 1);
      assert local[b].parent == if tree[b] >= 0 then local[tree[b] as nat] else null;
    }
  }

  // ------------------------------------------------- assembling the result

  /** The shape of the finished tree. */
  lemma Assemble(f: Forest, tree: seq<int>, log: seq<Pair>, r: nat, t: seq<int>, local: map<nat, PsiNode>, shapes: seq<Shape>)
    returns (shape: Shape)
    requires Sound(f, tree, log) && Roots(f) == {r} && f.next <= |tree| && t == tree[..f.next] && |shapes| == |f.rank|
    requires TS.Tabled(t, local, shapes) && ProperOf(shapes) && BushyOf(shapes) && TS.Wired(t, local, shapes)
    ensures r < |f.rank| && |f.ids| == |f.rank| && |f.ids[r]| == f.rank[r] + 1 && RootId(f, r) in local
    ensures shape.node == local[RootId(f, r)] && Proper(shape) && Bushy(shape) && InHeap(shape)
    ensures RootId(f, r) < |t| && shape == TS.ShapeAt(t, local, shapes, RootId(f, r), f.rank[r])
    ensures multiset(Leaves(shape)) == multiset(LeavesOf(shapes))
    ensures forall w :: w in Nodes(shape) ==> exists d :: 0 <= d < |t| && w in TS.Owned(local, shapes, d)
  {
    SoundIsLevelled(f, tree, log);
    OneRoot(f, tree, log, r);
    RootCovers(f, tree, log, r);
    var id, h, lev := RootId(f, r), f.rank[r], Levels(f);
    hide Sound, Roots, TS.Tabled, TS.Levelled, TS.Wired, Nodes, NodesOf, Leaves, LeavesOf, ProperOf, BushyOf, Proper, Bushy,
         RootId, TS.Kids, TS.Owned, Labelled;
    ElementsProper(shapes);
    shape := TS.ShapeAt(t, local, shapes, id, h);
    TS.ShapeProper(t, lev, local, shapes, id, h);
    TS.ShapeBushy(t, lev, local, shapes, id, h);
    TS.ShapeInHeap(t, lev, local, shapes, id, h);
    TS.ShapeLeaves(t, lev, local, shapes, id, h);
    PickPermuted(shapes, TS.Below(t, id, h));
    forall w | w in Nodes(shape) ensures exists d :: 0 <= d < |t| && w in TS.Owned(local, shapes, d) {
      var d, j := TS.NodeOwner(t, lev, local, shapes, id, h, w);
    }
  }

  lemma ElementsProper(shapes: seq<Shape>)
    requires ProperOf(shapes) && BushyOf(shapes)
    ensures forall i :: 0 <= i < |shapes| ==> Proper(shapes[i])
    ensures forall i :: 0 <= i < |shapes| ==> Bushy(shapes[i])
  {
    forall i | 0 <= i < |shapes| ensures Proper(shapes[i]) && Bushy(shapes[i]) {
      ProperOfElim(shapes, i, 0);
      BushyOfElim(shapes, i);
    }
  }

  // ------------------------------------------------- nodes for the array

  /** Indices of the new nodes: between the bounds and all different. */
  ghost predicate NewIndices(local: map<nat, PsiNode>, n: nat, low: nat, high: nat) {
    && low <= high
    && (forall id: nat {:trigger local[id]} :: id in local && id >= n ==> low <= local[id].index < high)
    && (forall d: nat, e: nat {:trigger local[d], local[e]} :: d in local && e in local && n <= d < e ==>
         local[d].index != local[e].index)
  }

  lemma TabledIntro(t: seq<int>, local: map<nat, PsiNode>, nodes: seq<PsiNode>, shapes: seq<Shape>, low: nat, high: nat)
    requires Table(nodes, local, low, high) && low <= high && nodes == Heads(shapes) && ProperOf(shapes)
    requires |shapes| <= |t| && (forall id: nat :: id in local <==> id < |t|)
    requires Indexed(NodesOf(shapes), low)
    ensures TS.Tabled(t, local, shapes) && OneEach(local) && NewIndices(local, |nodes|, low, high)
  {
    forall d, e | 0 <= d < e < |t| ensures TS.Owned(local, shapes, d) !! TS.Owned(local, shapes, e) {
      if e < |shapes| {
        ProperOfElim(shapes, d, e);
      } else if d < |shapes| {
        NodesOfMember(shapes, d);
        assert Bare(local[e], low, high);
      }
    }
    forall d, e {:trigger local[d], local[e]} | d in local && e in local && d != e ensures local[d] != local[e] {
      assert d < e ==> TS.Owned(local, shapes, d) !! TS.Owned(local, shapes, e);
      assert e < d ==> TS.Owned(local, shapes, e) !! TS.Owned(local, shapes, d);
    }
    forall id: nat {:trigger local[id]} | id in local && id >= |nodes| ensures low <= local[id].index < high {
      assert Bare(local[id], low, high);
    }
  }

  /** Inner nodes of separate trees are not among their roots. */
  lemma InnerNodes(ss: seq<Shape>, i: nat, j: nat)
    requires ProperOf(ss) && i < |ss| && j < |ss|
    ensures ss[j].node !in NodesOf(ss[i].kids)
  {
    ProperOfElim(ss, i, j);
    ProperOfElim(ss, j, i);
  }

  lemma InnerApart(ss: seq<Shape>)
    requires ProperOf(ss)
    ensures forall i :: 0 <= i < |ss| ==> NodesOf(ss[i].kids) !! set w | w in Heads(ss)
  {
    forall i, j | 0 <= i < |ss| && 0 <= j < |ss| ensures ss[j].node !in NodesOf(ss[i].kids) {
      InnerNodes(ss, i, j);
    }
  }

  datatype Rewiring = Rewiring(ss: seq<Shape>, tops: set<PsiNode>)

  /** Writing parents of roots keeps every tree linked. */
  twostate lemma {:induction false} RootsRewired(r: Rewiring)
    requires ProperOf(r.ss)
    requires old(AllInHeap(r.ss))
    requires forall i :: 0 <= i < |r.ss| ==> NodesOf(r.ss[i].kids) !! r.tops
    requires forall w :: w in NodesOf(r.ss) ==> old(allocated(w)) && w.children == old(w.children)
    requires forall w :: w in NodesOf(r.ss) && w !in r.tops ==> w.parent == old(w.parent)
    ensures AllInHeap(r.ss)
    decreases |r.ss|
  {
    if r.ss != [] {
      InHeapFrame(r.ss[0]);
      RootsRewired(Rewiring(r.ss[1..], r.tops));
    }
  }

  ghost function Snapshot(local: map<nat, PsiNode>): (ls: Links)
    reads local.Values
    ensures ls.local == local && ls.children.Keys == local.Keys && ls.parents.Keys == local.Keys
    ensures forall id :: id in local ==> ls.children[id] == local[id].children && ls.parents[id] == local[id].parent
  {
    Links(local, map id | id in local :: local[id].children, map id | id in local :: local[id].parent)
  }

  /** Links read off the array, before any of them is written. */
  lemma NothingLinked(ls: Links, t: seq<int>, kidsOf: map<nat, seq<nat>>)
    requires ls == Snapshot(ls.local) && Covers(ls.local, t) && KidTable(t, |t|, kidsOf)
    ensures ChildrenBut(ls, t, kidsOf.Keys) && ParentsBut(ls, t, kidsOf.Keys)
  {
    forall c: nat | c < |t| && t[c] >= 0 ensures t[c] in kidsOf {
      assert c in TS.Kids(t, t[c]);
    }
  }

  /** Entries of the array: in range, and only those above the leaves have children. */
  lemma LevelledRange(t: seq<int>, n: nat, lev: seq<nat>)
    requires TS.Levelled(t, n, lev) && forall c :: 0 <= c < |t| ==> t[c] >= -1
    ensures forall c :: 0 <= c < |t| ==> -1 <= t[c] < |t|
    ensures forall id: nat :: id < n ==> TS.Kids(t, id) == []
  {
    forall id: nat | id < n ensures TS.Kids(t, id) == [] {
      forall c | 0 <= c < |t| ensures t[c] != id {
        assert t[c] >= 0 ==> lev[t[c]] == lev[c] + 1;
      }
      NoKids(t, id, |t|);
    }
  }

  lemma {:induction false} NoKids(t: seq<int>, id: nat, m: nat)
    requires m <= |t| && forall c :: 0 <= c < m ==> t[c] != id
    ensures TS.KidIds(t, id, m) == []
    decreases m
  {
    if m > 0 {
      NoKids(t, id, m - 1);
    }
  }

  /** The links the second loop leaves behind, as the facts about shapes need them. */
  lemma WiredIntro(ls: Links, t: seq<int>, shapes: seq<Shape>)
    requires Covers(ls.local, t) && TS.Tabled(t, ls.local, shapes) && AllInHeap(shapes)
    requires ChildrenBut(ls, t, {}) && ParentsBut(ls, t, {})
    requires forall id: nat {:trigger TS.Kids(t, id)} :: |shapes| <= id < |t| ==> |TS.Kids(t, id)| >= 2
    ensures TS.Wired(t, ls.local, shapes)
  {
    hide AllInHeap, TS.Tabled, TS.KidIds, TS.Kids;
    forall id {:trigger TS.Kids(t, id)} | |shapes| <= id < |t|
      ensures |ls.local[id].children| == |TS.Kids(t, id)|
      ensures forall i :: 0 <= i < |TS.Kids(t, id)| ==> ls.local[id].children[i] == ls.local[TS.Kids(t, id)[i]]
    {
      assert ls.local[id].children == KidNodes(ls.local, t, id);
    }
  }

  lemma FollowsIntro(ls: Links, t: seq<int>)
    requires Covers(ls.local, t) && ParentsBut(ls, t, {}) && forall c :: c in ls.local ==> ls.parents[c] == null
    ensures Follows(ls.local, t, |t|)
  {
  }

  /** The child lists of input nodes are as found. */
  lemma InputChildren(ls: Links, t: seq<int>, nodes: seq<PsiNode>)
    requires Covers(ls.local, t) && ChildrenBut(ls, t, {})
    requires forall id: nat :: id < |nodes| ==> TS.Kids(t, id) == [] && id in ls.local && ls.local[id] == nodes[id]
    ensures forall w :: w in nodes ==> exists id :: id in ls.local && ls.local[id] == w && w.children == ls.children[id]
  {
    forall w | w in nodes ensures exists id :: id in ls.local && ls.local[id] == w && w.children == ls.children[id] {
      var id: nat :| id < |nodes| && nodes[id] == w;
      assert ls.local[id] == w;
    }
  }

  /** Second half of `LinkTree`: the links, and what they leave alone. */
  method WireNodes(nodes: seq<PsiNode>, local: map<nat, PsiNode>, kidsOf: map<nat, seq<nat>>, tree: seq<int>, ghost shapes: seq<Shape>)
    requires nodes == Heads(shapes) && ProperOf(shapes) && AllInHeap(shapes)
    requires TS.Tabled(tree, local, shapes) && OneEach(local) && Covers(local, tree) && KidTable(tree, |tree|, kidsOf)
    requires forall id: nat {:trigger TS.Kids(tree, id)} :: |shapes| <= id < |tree| ==> |TS.Kids(tree, id)| >= 2
    requires forall id: nat :: id < |nodes| ==> TS.Kids(tree, id) == [] && id in local && local[id] == nodes[id]
    requires forall id :: id in local ==> local[id].parent == null
    requires (local.Values - set w | w in nodes) !! NodesOf(shapes)
    modifies local.Values`children, local.Values`parent
    ensures TS.Wired(tree, local, shapes) && Follows(local, tree, |tree|)
    ensures forall w :: w in nodes ==> w.children == old(w.children)
  {
    hide TS.Tabled, TS.Kids, TS.KidIds, TS.Wired, Covers, KidTable, OneEach, NodesOf, ProperOf, AllInHeap, ChildrenBut, ParentsBut, Follows;
    ghost var ls := Snapshot(local);
    NothingLinked(ls, tree, kidsOf);
    InnerApart(shapes);
    NodesOfAllocated(shapes);
    LinkNodes(local, kidsOf, tree, ls);
    InputChildren(ls, tree, nodes);
    assert forall w :: w in nodes ==> w.children == old(w.children);
    RootsRewired(Rewiring(shapes, set w | w in nodes));
    WiredIntro(ls, tree, shapes);
    FollowsIntro(ls, tree);
  }

  /** Nodes of the table have no parent yet, and the new ones are outside the input trees. */
  lemma TableApart(local: map<nat, PsiNode>, nodes: seq<PsiNode>, shapes: seq<Shape>, low: nat, high: nat)
    requires Table(nodes, local, low, high) && Forestry(nodes, shapes) && Indexed(NodesOf(shapes), low)
    ensures forall id :: id in local ==> local[id].parent == null
    ensures (local.Values - set w | w in nodes) !! NodesOf(shapes)
  {
    forall id | id in local ensures local[id].parent == null && (id < |nodes| || local[id].index >= low) {
      if id < |nodes| {
        assert shapes[id].node.parent == null;
      } else {
        assert Bare(local[id], low, high);
      }
    }
    forall w | w in local.Values && w !in nodes ensures w !in NodesOf(shapes) {
      var id: nat :| id in local && local[id] == w;
      assert id >= |nodes|;
    }
  }

  /** Both loops of the exact build: nodes for the array, then their links. */
  method LinkTree(nodes: seq<PsiNode>, tree: seq<int>, nextIndex: nat, ghost shapes: seq<Shape>, ghost lev: seq<nat>)
    returns (local: map<nat, PsiNode>, nextIndex': nat)
    requires Forestry(nodes, shapes) && Indexed(NodesOf(shapes), nextIndex)
    requires TS.Levelled(tree, |nodes|, lev) && forall c :: 0 <= c < |tree| ==> tree[c] >= -1
    modifies (set w | w in nodes)`children, (set w | w in nodes)`parent
    ensures TS.Tabled(tree, local, shapes) && TS.Wired(tree, local, shapes) && Follows(local, tree, |tree|)
    ensures forall w :: w in nodes ==> w.children == old(w.children)
    ensures fresh(local.Values - set w | w in nodes)
    ensures NewIndices(local, |nodes|, nextIndex, nextIndex') && nextIndex' >= nextIndex && OneEach(local)
  {
    LevelledRange(tree, |nodes|, lev);
    NodesOfAllocated(shapes);
    hide TS.Tabled, TS.Kids, TS.KidIds, TS.Wired, Table, KidTable, OneEach, NodesOf, ProperOf, AllInHeap, BushyOf, Follows, NewIndices, Indexed;
    var kidsOf;
    local, kidsOf, nextIndex' := CreateNodes(nodes, tree, nextIndex);
    TabledIntro(tree, local, nodes, shapes, nextIndex, nextIndex');
    TableApart(local, nodes, shapes, nextIndex, nextIndex');
    WireNodes(nodes, local, kidsOf, tree, shapes);
  }

  // ------------------------------------------------- the exact build

  /** `max(roots, key=index)` over the open entries. */
  method PickRoot(tree: seq<int>, local: map<nat, PsiNode>) returns (rootId: nat)
    requires forall id: nat :: id < |tree| ==> id in local
    requires exists id :: 0 <= id < |tree| && tree[id] == -1
    ensures rootId < |tree| && tree[rootId] == -1
    ensures forall id: nat :: id < |tree| && tree[id] == -1 ==> local[id].index <= local[rootId].index
  {
    rootId := 0;
    var found := false;
    for id := 0 to |tree|
      invariant found ==> rootId < id && tree[rootId] == -1
      invariant !found ==> forall d :: 0 <= d < id ==> tree[d] != -1
      invariant found ==> forall d: nat :: d < id && tree[d] == -1 ==> local[d].index <= local[rootId].index
    {
      if tree[id] == -1 && (!found || local[id].index > local[rootId].index) {
        rootId, found := id, true;
      }
    }
  }

  /** A node owned by an entry is an input node or the new node of that entry. */
  lemma OwnedNode(local: map<nat, PsiNode>, shapes: seq<Shape>, d: nat, w: PsiNode, low: nat, high: nat)
    requires w in TS.Owned(local, shapes, d)
    requires Indexed(NodesOf(shapes), low) && NewIndices(local, |shapes|, low, high)
    ensures d < |shapes| ==> w in NodesOf(shapes) && w.index < low
    ensures d >= |shapes| ==> d in local && local[d] == w && low <= w.index < high
  {
    if d < |shapes| {
      NodesOfMember(shapes, d);
    }
  }

  lemma OwnedPair(local: map<nat, PsiNode>, shapes: seq<Shape>, d: nat, e: nat, v: PsiNode, w: PsiNode, low: nat, high: nat)
    requires v in TS.Owned(local, shapes, d) && w in TS.Owned(local, shapes, e) && v.index == w.index
    requires Indexed(NodesOf(shapes), low) && NewIndices(local, |shapes|, low, high)
    ensures v == w
  {
    OwnedNode(local, shapes, d, v, low, high);
    OwnedNode(local, shapes, e, w, low, high);
    hide NodesOf, TS.Owned;
  }

  /** Nodes of the result keep their indices apart. */
  lemma ResultIndexed(t: seq<int>, local: map<nat, PsiNode>, shapes: seq<Shape>, ns: set<PsiNode>, low: nat, high: nat)
    requires Indexed(NodesOf(shapes), low) && NewIndices(local, |shapes|, low, high)
    requires forall w :: w in ns ==> exists d :: 0 <= d < |t| && w in TS.Owned(local, shapes, d)
    ensures Indexed(ns, high)
    ensures forall w :: w in ns ==> w in NodesOf(shapes) || (w in local.Values && w.index >= low)
  {
    hide NodesOf, TS.Owned, Indexed, NewIndices;
    forall w | w in ns ensures w.index < high && (w in NodesOf(shapes) || (w in local.Values && w.index >= low)) {
      var d :| 0 <= d < |t| && w in TS.Owned(local, shapes, d);
      OwnedNode(local, shapes, d, w, low, high);
      BoundsInOrder(local, shapes, low, high);
    }
    forall v, w | v in ns && w in ns && v.index == w.index ensures v == w {
      var d :| 0 <= d < |t| && v in TS.Owned(local, shapes, d);
      var e :| 0 <= e < |t| && w in TS.Owned(local, shapes, e);
      OwnedPair(local, shapes, d, e, v, w, low, high);
    }
    IndexedIntro(ns, high);
  }

  lemma BoundsInOrder(local: map<nat, PsiNode>, shapes: seq<Shape>, low: nat, high: nat)
    requires NewIndices(local, |shapes|, low, high)
    ensures low <= high
  {
  }

  lemma IndexedIntro(ns: set<PsiNode>, high: nat)
    requires forall w :: w in ns ==> w.index < high
    requires forall v, w :: v in ns && w in ns && v.index == w.index ==> v == w
    ensures Indexed(ns, high)
  {
  }

  lemma SingletonRoots(s: set<nat>) returns (r: nat)
    requires |s| == 1
    ensures s == {r}
  {
    r :| r in s;
    assert |s - {r}| == 0;
  }

  /** What the union-find hands over once all nodes are connected. */
  lemma Connected(f: Forest, tree: seq<int>, log: seq<Pair>) returns (r: nat)
    requires Sound(f, tree, log) && |Roots(f)| == 1
    ensures Roots(f) == {r} && r < |f.rank| && Labelled(f) && f.next <= |tree| && RootId(f, r) < f.next
    ensures TS.Levelled(tree[..f.next], |f.rank|, Levels(f))
    ensures forall c :: 0 <= c < f.next ==> tree[c] >= -1 && (tree[c] == -1 <==> c == RootId(f, r))
  {
    r := SingletonRoots(Roots(f));
    SoundIsLevelled(f, tree, log);
    OneRoot(f, tree, log, r);
    forall c | 0 <= c < f.next ensures tree[c] >= -1 {
      EdgeInRange(f, tree, log, c);
    }
  }

  /** Connected leaves meet by the processed pairs where they meet by the whole ranking. */
  lemma MeetByRanking(f: Forest, tree: seq<int>, log: seq<Pair>, pairs: seq<Pair>, x: nat, y: nat, k: nat)
    requires Sound(f, tree, log) && |Roots(f)| == 1 && log <= pairs && x < |f.rank| && y < |f.rank|
    ensures Meet(pairs, k, x, y) <==> Meet(log, k, x, y)
  {
    var r := SingletonRoots(Roots(f));
    OneRoot(f, tree, log, r);
    MeetingIsFinal(log, pairs[|log|..], k, x, y);
    assert pairs == log + pairs[|log|..];
  }

  /** The finished objects climb as the ranking says. */
  lemma RiseByRanking(f: Forest, tree: seq<int>, log: seq<Pair>, pairs: seq<Pair>, local: map<nat, PsiNode>, x: nat, y: nat, k: nat)
    requires Sound(f, tree, log) && |Roots(f)| == 1 && log <= pairs && x < |f.rank| && y < |f.rank|
    requires f.next <= |tree| && Follows(local, tree[..f.next], f.next) && OneEach(local)
    ensures x in local && y in local && (Rise(local[x], k) == Rise(local[y], k) <==> Meet(pairs, k, x, y))
  {
    MeetByRanking(f, tree, log, pairs, x, y, k);
    ArrayIsHierarchy(f, tree, log, x, y, k);
    hide Sound, Meet, Roots;
    RiseIsClimb(local, tree[..f.next], f.next, x, k);
    RiseIsClimb(local, tree[..f.next], f.next, y, k);
    ClimbPrefix(tree, f.next, x, k);
    ClimbPrefix(tree, f.next, y, k);
  }

  lemma {:induction false} ClimbPrefix(tree: seq<int>, m: nat, x: nat, k: nat)
    requires m <= |tree| && x < m && forall c :: 0 <= c < m ==> tree[c] < m
    ensures Climb(tree[..m], x, k) == Climb(tree, x, k) < m
    decreases k
  {
    if k > 0 {
      ClimbPrefix(tree, m, x, k - 1);
    }
  }

  /** The array is a ranked one with a single root, whichever pairs come after its own. */
  lemma ArrayByRanking(f: Forest, tree: seq<int>, log: seq<Pair>, pairs: seq<Pair>, r: nat)
    requires Sound(f, tree, log) && Roots(f) == {r} && log <= pairs
    ensures r < |f.rank| && Labelled(f) && f.next <= |tree| && RootId(f, r) < f.next
    ensures |Levels(f)| == f.next && Levels(f)[RootId(f, r)] == f.rank[r]
    ensures TS.Levelled(tree[..f.next], |f.rank|, Levels(f))
    ensures C.Rooted(tree[..f.next], |f.rank|, RootId(f, r), f.rank[r])
    ensures C.Ranked(tree[..f.next], |f.rank|, pairs)
  {
    OneRoot(f, tree, log, r);
    SoundIsLevelled(f, tree, log);
    var t, n := tree[..f.next], |f.rank|;
    assert |Roots(f)| == 1;
    forall c | 0 <= c < f.next ensures tree[c] < f.next { EdgeInRange(f, tree, log, c); }
    hide Sound, Roots, Labelled, RootId, Meet, TS.Levelled, TS.Up;
    forall x {:trigger TS.Up(t, x, f.rank[r])} | 0 <= x < n ensures TS.Up(t, x, f.rank[r]) == RootId(f, r) {
      LeavesUnderRoot(f, tree, log, r, x);
    }
    forall k: nat, x: nat, y: nat | x < n && y < n ensures Climb(t, x, k) == Climb(t, y, k) <==> Meet(pairs, k, x, y) {
      MeetByRanking(f, tree, log, pairs, x, y, k);
      ArrayIsHierarchy(f, tree, log, x, y, k);
      ClimbPrefix(tree, f.next, x, k);
      ClimbPrefix(tree, f.next, y, k);
    }
  }

  /** Input nodes and the root in the finished table. */
  lemma TableEnds(t: seq<int>, local: map<nat, PsiNode>, shapes: seq<Shape>, rootId: nat)
    requires TS.Tabled(t, local, shapes) && Follows(local, t, |t|) && rootId < |t| && t[rootId] == -1
    ensures |shapes| <= |t| && rootId in local && local[rootId].parent == null
    ensures forall id: nat :: id < |t| ==> id in local
    ensures forall x: nat :: x < |shapes| ==> local[x] == Heads(shapes)[x]
  {
  }

  /** The linked table is the tree that the build promises. */
  lemma Finish(f: Forest, tree: seq<int>, log: seq<Pair>, pairs: seq<Pair>, r: nat, t: seq<int>, local: map<nat, PsiNode>,
               shapes: seq<Shape>, low: nat, high: nat) returns (shape: Shape)
    requires Sound(f, tree, log) && Roots(f) == {r} && r < |f.rank| && Labelled(f) && |shapes| == |f.rank| && log <= pairs
    requires RootId(f, r) < f.next <= |tree| && t == tree[..f.next] && t[RootId(f, r)] == -1
    requires ProperOf(shapes) && BushyOf(shapes) && Indexed(NodesOf(shapes), low) && NewIndices(local, |shapes|, low, high)
    requires TS.Tabled(t, local, shapes) && TS.Wired(t, local, shapes) && Follows(local, t, |t|)
    ensures RootId(f, r) in local && Tree(local[RootId(f, r)], shape)
    ensures multiset(Leaves(shape)) == multiset(LeavesOf(shapes)) && Indexed(Nodes(shape), high)
    ensures forall w :: w in Nodes(shape) ==> w in NodesOf(shapes) || (w in local.Values && w.index >= low)
    ensures C.ByMeetings(shape, shapes, pairs)
  {
    hide Sound, Roots, Indexed, AllInHeap, NodesOf, Nodes, Leaves, LeavesOf, BushyOf, ProperOf, Bushy, Proper, InHeap,
         TS.Tabled, TS.Wired, TS.ShapeAt, TS.Levelled, Follows, NewIndices, Labelled, RootId, TS.Owned, C.ByMeetings, C.Rooted, C.Ranked;
    TableEnds(t, local, shapes, RootId(f, r));
    shape := Assemble(f, tree, log, r, t, local, shapes);
    ArrayByRanking(f, tree, log, pairs, r);
    C.TreeByMeetings(t, Levels(f), local, shapes, pairs, RootId(f, r), f.rank[r]);
    ResultIndexed(t, local, shapes, Nodes(shape), low, high);
  }

  /** `_build_exact_psi_structure`: one tree over the given subtrees, whose parent links
      climb as the ranked pairs say. */
  method BuildExact(nodes: seq<PsiNode>, nextIndex: nat, pairs: seq<Pair>, ghost shapes: seq<Shape>)
    returns (root: PsiNode, nextIndex': nat, merges: nat, ghost shape: Shape)
    requires nodes != [] && Forestry(nodes, shapes) && Indexed(NodesOf(shapes), nextIndex)
    requires |nodes| > 1 ==> IsRanking(|nodes|, pairs)
    modifies (set w | w in nodes)`children, (set w | w in nodes)`parent
    ensures Tree(root, shape) && multiset(Leaves(shape)) == multiset(LeavesOf(shapes))
    ensures merges == |nodes| - 1 && nextIndex' >= nextIndex && Indexed(Nodes(shape), nextIndex')
    ensures forall w :: w in Nodes(shape) ==> w in NodesOf(shapes) || (fresh(w) && w.index >= nextIndex)
    ensures forall w :: w in nodes ==> w.children == old(w.children)
    ensures root in nodes || fresh(root)
    ensures if |nodes| == 1 then shape == shapes[0] else ClimbsBy(nodes, pairs) && C.ByMeetings(shape, shapes, pairs)
  {
    if |nodes| == 1 {
      root, nextIndex', merges, shape := nodes[0], nextIndex, 0, shapes[0];
      return;
    }
    hide Sound, Roots, Indexed, IsRanking, ClimbsBy, C.ByMeetings, NodesOf, Nodes, AllInHeap, Leaves, LeavesOf, Tree, Labelled;
    NodesOfAllocated(shapes);
    var uf;
    uf, merges := MergeAll(|nodes|, pairs);
    root, nextIndex', shape := TreeNodes(nodes, nextIndex, pairs, uf, shapes);
  }

  /** Leaves meet by parent links after k steps exactly when the ranking makes them. */
  ghost predicate ClimbsBy(nodes: seq<PsiNode>, pairs: seq<Pair>)
    reads *
  {
    forall k: nat, x: nat, y: nat :: x < |nodes| && y < |nodes| ==>
      (Rise(nodes[x], k) == Rise(nodes[y], k) <==> Meet(pairs, k, x, y))
  }

  /** The half of the exact build that follows the union-find. */
  method TreeNodes(nodes: seq<PsiNode>, nextIndex: nat, ghost pairs: seq<Pair>, uf: UnionFind, ghost shapes: seq<Shape>)
    returns (root: PsiNode, nextIndex': nat, ghost shape: Shape)
    requires Forestry(nodes, shapes) && Indexed(NodesOf(shapes), nextIndex)
    requires uf.Valid() && |uf.rank| == |nodes| && |Roots(uf.State())| == 1 && uf.log <= pairs
    modifies (set w | w in nodes)`children, (set w | w in nodes)`parent
    ensures Tree(root, shape) && multiset(Leaves(shape)) == multiset(LeavesOf(shapes))
    ensures nextIndex' >= nextIndex && Indexed(Nodes(shape), nextIndex')
    ensures forall w :: w in Nodes(shape) ==> w in NodesOf(shapes) || (fresh(w) && w.index >= nextIndex)
    ensures forall w :: w in nodes ==> w.children == old(w.children)
    ensures root in nodes || fresh(root)
    ensures ClimbsBy(nodes, pairs) && C.ByMeetings(shape, shapes, pairs)
  {
    hide Sound, Roots, Indexed, NodesOf, Nodes, AllInHeap, Leaves, LeavesOf, Tree, Labelled, RootId, Rise, Meet, C.ByMeetings,
         TS.Levelled, TS.Tabled, TS.Wired, Follows, NewIndices, OneEach, ProperOf, BushyOf;
    NodesOfAllocated(shapes);
    ghost var f, full, log := uf.State(), uf.tree, uf.log;
    ghost var r := Connected(f, full, log);
    var tree := uf.Tree();
    var local;
    local, nextIndex' := LinkTree(nodes, tree, nextIndex, shapes, Levels(f));
    shape := Finish(f, full, log, pairs, r, tree, local, shapes, nextIndex, nextIndex');
    TableEnds(tree, local, shapes, RootId(f, r));
    var rootId := PickRoot(tree, local);
    root := local[rootId];
    forall k: nat, x: nat, y: nat | x < |nodes| && y < |nodes|
      ensures Rise(nodes[x], k) == Rise(nodes[y], k) <==> Meet(pairs, k, x, y)
    {
      RiseByRanking(f, full, log, pairs, local, x, y, k);
    }
  }

}
