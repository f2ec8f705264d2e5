/** `_rebalance_psi_tree`: groups oversized child lists in place. */
module PsiRebalance {
  import opened PsiNodes
  import opened PsiBuild
  import opened PsiRegroup

  /** No node has more than `limit` children. */
  ghost predicate Fan(s: Shape, limit: nat) {
    |s.kids| <= limit && FanOf(s.kids, limit)
  }

  ghost predicate FanOf(ss: seq<Shape>, limit: nat) {
    ss == [] || (Fan(ss[0], limit) && FanOf(ss[1..], limit))
  }

  lemma {:induction false} FanOfAppend(a: seq<Shape>, b: seq<Shape>, limit: nat)
    ensures FanOf(a + b, limit) <==> FanOf(a, limit) && FanOf(b, limit)
    decreases |a|
  {
    if a == [] {
      assert a + b == b;
    } else {
      assert (a + b)[1..] == a[1..] + b;
      FanOfAppend(a[1..], b, limit);
    }
  }

  /** The trees ss are separate, linked, and all hang below `node`. */
  ghost predicate Brood(node: PsiNode, ss: seq<Shape>)
    reads NodesOf(ss)
  {
    && ProperOf(ss) && node !in NodesOf(ss) && AllInHeap(ss)
    && forall i :: 0 <= i < |ss| ==> ss[i].node.parent == node
  }

  /** What a pass over child lists keeps on values: bushy trees within the limit. */
  ghost predicate Kept(ss: seq<Shape>, limit: nat) {
    BushyOf(ss) && FanOf(ss, limit)
  }

  lemma BroodAppend(node: PsiNode, a: seq<Shape>, b: seq<Shape>)
    ensures Brood(node, a + b) <==> Brood(node, a) && Brood(node, b) && NodesOf(a) !! NodesOf(b)
  {
    NodesOfAppend(a, b);
    ProperOfAppend(a, b);
    AllInHeapAppend(a, b);
    hide NodesOf, ProperOf, AllInHeap;
    var all := a + b;
    if forall i :: 0 <= i < |all| ==> all[i].node.parent == node {
      forall i | 0 <= i < |a| ensures a[i].node.parent == node { assert all[i] == a[i]; }
      forall i | 0 <= i < |b| ensures b[i].node.parent == node { assert all[|a| + i] == b[i]; }
    }
  }

  /** `_create_psi_parent`. */
  method CreatePsiParent(index: nat, children: seq<PsiNode>) returns (parent: PsiNode)
    modifies (set w | w in children)`parent
    ensures fresh(parent) && parent.index == index && parent.children == children && parent.parent == null
    ensures forall i :: 0 <= i < |children| ==> children[i].parent == parent
  {
    parent := new PsiNode(index, "", children);
    for i := 0 to |children|
      invariant parent.children == children && parent.parent == null
      invariant forall j :: 0 <= j < i ==> children[j].parent == parent
    {
      children[i].parent := parent;
    }
  }

  /** A batch of siblings gets a parent of its own below `node`. */
  method WrapBatch(node: PsiNode, batch: seq<PsiNode>, index: nat, ghost ss: seq<Shape>) returns (parent: PsiNode)
    requires Brood(node, ss) && batch == Heads(ss)
    modifies (set w | w in batch)`parent
    ensures fresh(parent) && parent.index == index && parent.children == batch
    ensures Brood(node, [Shape(parent, ss)])
  {
    NodesOfAllocated(ss);
    InnerApart(ss);
    parent := CreatePsiParent(index, batch);
    parent.parent := node;
    assert node != parent;
    RootsRewired(Rewiring(ss, set w | w in batch));
    Single(Shape(parent, ss));
  }

  lemma WrapValues(g: seq<Shape>, batch: seq<Shape>, rest: seq<Shape>, p: PsiNode, limit: nat)
    requires Kept(g + (batch + rest), limit) && 2 <= |batch| <= limit
    ensures Kept(g + [Shape(p, batch)] + rest, limit)
    ensures LeavesOf(g + [Shape(p, batch)] + rest) == LeavesOf(g + (batch + rest))
    ensures NodesOf(g + [Shape(p, batch)] + rest) == NodesOf(g + (batch + rest)) + {p}
  {
    var s := Shape(p, batch);
    Single(s);
    WrapNodes(g, batch, rest, s);
    WrapLeaves(g, batch, rest, s);
    BushyOfAppend(g, batch + rest);
    BushyOfAppend(batch, rest);
    BushyOfAppend(g, [s]);
    BushyOfAppend(g + [s], rest);
    FanOfAppend(g, batch + rest, limit);
    FanOfAppend(batch, rest, limit);
    FanOfAppend(g, [s], limit);
    FanOfAppend(g + [s], rest, limit);
    SingleFan(s, limit);
    hide NodesOf, LeavesOf, BushyOf, FanOf;
  }

  lemma SingleFan(s: Shape, limit: nat)
    ensures FanOf([s], limit) <==> Fan(s, limit)
  {
    var one: seq<Shape> := [s];
    assert one[1..] == [];
  }

  lemma WrapNodes(g: seq<Shape>, batch: seq<Shape>, rest: seq<Shape>, s: Shape)
    requires s.kids == batch
    ensures NodesOf(g + [s] + rest) == NodesOf(g + (batch + rest)) + {s.node}
  {
    Single(s);
    NodesOfAppend(g, [s]);
    NodesOfAppend(g + [s], rest);
    NodesOfAppend(batch, rest);
    NodesOfAppend(g, batch + rest);
    assert Nodes(s) == {s.node} + NodesOf(batch);
    hide NodesOf, Nodes;
  }

  lemma WrapLeaves(g: seq<Shape>, batch: seq<Shape>, rest: seq<Shape>, s: Shape)
    requires s.kids == batch && batch != []
    ensures LeavesOf(g + [s] + rest) == LeavesOf(g + (batch + rest))
  {
    Single(s);
    LeavesOfAppend(g, [s]);
    LeavesOfAppend(g + [s], rest);
    LeavesOfAppend(batch, rest);
    LeavesOfAppend(g, batch + rest);
    assert Leaves(s) == LeavesOf(batch);
    hide LeavesOf, Leaves;
  }

  lemma IndexedAdd(ns: set<PsiNode>, p: PsiNode, high: nat)
    requires Indexed(ns, high) && p.index == high
    ensures Indexed(ns + {p}, high + 1)
  {
  }

  /** The children of a pass: the groups made so far, then those still to group. */
  ghost predicate Pass(node: PsiNode, all: seq<Shape>, limit: nat, high: nat)
    reads NodesOf(all)
  {
    Brood(node, all) && Kept(all, limit) && Indexed(NodesOf(all), high)
  }

  /** One batch of the pass. */
  method GroupBatch(node: PsiNode, batch: seq<PsiNode>, nextIndex: nat, limit: nat,
                    ghost g: seq<Shape>, ghost ss: seq<Shape>, ghost rest: seq<Shape>, ghost known: set<PsiNode>)
    returns (child: PsiNode, nextIndex': nat, ghost s: Shape)
    requires 0 < |ss| <= limit && batch == Heads(ss) && Pass(node, g + (ss + rest), limit, nextIndex)
    modifies (set w | w in batch)`parent
    ensures child == s.node && Pass(node, g + [s] + rest, limit, nextIndex') && nextIndex' >= nextIndex
    ensures LeavesOf(g + [s] + rest) == LeavesOf(g + (ss + rest))
    ensures FormOf(s, known) == Bundle(FormsOf(ss, known))
    ensures forall w :: w in NodesOf(g + [s] + rest) ==>
      w in NodesOf(g + (ss + rest)) || (fresh(w) && w.index >= nextIndex)
  {
    hide Indexed, Kept, Brood, NodesOf, LeavesOf;
    NodesOfAllocated(g + (ss + rest));
    if |batch| == 1 {
      s, child, nextIndex' := ss[0], batch[0], nextIndex;
      assert g + (ss + rest) == g + [s] + rest;
      BroodParent(node, g + [s] + rest, |g|);
      Reattach(node, child, g + [s] + rest);
    } else {
      BroodAppend(node, g, ss + rest);
      BroodAppend(node, ss, rest);
      NodesOfAppend(g, ss + rest);
      NodesOfAppend(ss, rest);
      child := WrapBatch(node, batch, nextIndex, ss);
      s := Shape(child, ss);
      nextIndex' := nextIndex + 1;
      WrapValues(g, ss, rest, child, limit);
      IndexedAdd(NodesOf(g + (ss + rest)), child, nextIndex);
      Single(s);
      assert Nodes(s) == {child} + NodesOf(ss);
      BroodAppend(node, g, [s]);
      NodesOfAppend(g, [s]);
      BroodAppend(node, g + [s], rest);
    }
  }

  /** A batch of one stays where it is: writing its parent link again changes nothing. */
  method Reattach(node: PsiNode, child: PsiNode, ghost all: seq<Shape>)
    requires Brood(node, all) && child.parent == node
    modifies {child}`parent
    ensures Brood(node, all)
  {
    NodesOfAllocated(all);
    child.parent := node;
    InnerApart(all);
    RootsRewired(Rewiring(all, set w | w in Heads(all)));
  }

  lemma BroodParent(node: PsiNode, ss: seq<Shape>, i: nat)
    requires Brood(node, ss) && i < |ss|
    ensures ss[i].node.parent == node
  {
  }

  /** One pass over the child list: consecutive batches of at most `limit` get parents. */
  method GroupOnce(node: PsiNode, nextIndex: nat, limit: nat, ghost ss: seq<Shape>, ghost known: set<PsiNode>)
    returns (grouped: seq<PsiNode>, nextIndex': nat, ghost g: seq<Shape>)
    requires 2 <= limit < |ss| && node.children == Heads(ss) && Pass(node, ss, limit, nextIndex)
    modifies (set w | w in Heads(ss))`parent
    ensures grouped == Heads(g) && Pass(node, g, limit, nextIndex') && nextIndex' >= nextIndex
    ensures 2 <= |g| < |ss| && LeavesOf(g) == LeavesOf(ss)
    ensures FormsOf(g, known) == RowOf(FormsOf(ss, known), limit)
    ensures forall w :: w in NodesOf(g) ==> w in NodesOf(ss) || (fresh(w) && w.index >= nextIndex)
  {
    hide NodesOf, LeavesOf, Pass, Heads, FormOf, FormsOf, RowOf, Bundle, Rowed;
    var start := 0;
    RowedNone(ss, limit, known);
    grouped, nextIndex', g := [], nextIndex, [];
    while start < |node.children|
      invariant node.children == Heads(ss)
      invariant start <= |ss| && grouped == Heads(g)
      invariant Pass(node, g + ss[start..], limit, nextIndex') && nextIndex' >= nextIndex
      invariant Rowed(ss, g, start, limit, known)
      invariant start == 0 ==> g == []
      invariant start > 0 ==> start >= limit && 1 <= |g| < start && (start > limit ==> |g| >= 2)
      invariant forall w :: w in NodesOf(g + ss[start..]) ==> w in NodesOf(ss) || (fresh(w) && w.index >= nextIndex)
    {
      var stop := if start + limit < |node.children| then start + limit else |node.children|;
      var batch := node.children[start..stop];
      assert ss[start..] == ss[start..stop] + ss[stop..];
      var child;
      ghost var s;
      child, nextIndex', s := GroupBatch(node, batch, nextIndex', limit, g, ss[start..stop], ss[stop..], known);
      RowedNext(ss, g, s, start, stop, limit, known);
      grouped, g, start := grouped + [child], g + [s], stop;
    }
    RowedAll(ss, g, limit, known);
  }

  /** The groups made of the first `start` children: the same leaves in all, and so far the
      forms that one pass gives. */
  ghost predicate Rowed(ss: seq<Shape>, g: seq<Shape>, start: nat, limit: nat, known: set<PsiNode>)
    requires limit >= 2
  {
    && start <= |ss| && LeavesOf(g + ss[start..]) == LeavesOf(ss)
    && FormsOf(g, known) + RowOf(FormsOf(ss[start..], known), limit) == RowOf(FormsOf(ss, known), limit)
  }

  lemma RowedNone(ss: seq<Shape>, limit: nat, known: set<PsiNode>)
    requires limit >= 2
    ensures Rowed(ss, [], 0, limit, known) && [] + ss[0..] == ss
  {
    NoForms(ss, limit, known);
    hide LeavesOf, FormOf, RowOf;
    assert [] + ss[0..] == ss;
    assert FormsOf([], known) == [];
  }

  lemma RowedNext(ss: seq<Shape>, g: seq<Shape>, s: Shape, start: nat, stop: nat, limit: nat, known: set<PsiNode>)
    requires limit >= 2 && Rowed(ss, g, start, limit, known) && start < |ss|
    requires stop == if start + limit < |ss| then start + limit else |ss|
    requires FormOf(s, known) == Bundle(FormsOf(ss[start..stop], known))
    requires LeavesOf(g + [s] + ss[stop..]) == LeavesOf(g + (ss[start..stop] + ss[stop..]))
    ensures Rowed(ss, g + [s], stop, limit, known)
  {
    hide LeavesOf, FormOf, FormsOf, RowOf, Bundle;
    assert ss[start..] == ss[start..stop] + ss[stop..];
    assert ss[start..][..stop - start] == ss[start..stop] && ss[start..][stop - start..] == ss[stop..];
    RowNext(g, s, ss[start..], stop - start, limit, known);
  }

  lemma RowedAll(ss: seq<Shape>, g: seq<Shape>, limit: nat, known: set<PsiNode>)
    requires limit >= 2 && Rowed(ss, g, |ss|, limit, known)
    ensures g + ss[|ss|..] == g && LeavesOf(g) == LeavesOf(ss) && FormsOf(g, known) == RowOf(FormsOf(ss, known), limit)
  {
    hide LeavesOf, FormOf;
    assert g + ss[|ss|..] == g && ss[|ss|..] == [];
    assert RowOf(FormsOf([], known), limit) == [];
  }

  lemma NoForms(ss: seq<Shape>, limit: nat, known: set<PsiNode>)
    requires limit >= 2
    ensures FormsOf([], known) == [] && RowOf([], limit) == [] && ss[0..] == ss
  {
  }

  /** The forms of one more batch. */
  lemma RowNext(g: seq<Shape>, s: Shape, rest: seq<Shape>, n: nat, limit: nat, known: set<PsiNode>)
    requires limit >= 2 && 0 < n <= |rest| && n == (if limit < |rest| then limit else |rest|)
    requires FormOf(s, known) == Bundle(FormsOf(rest[..n], known))
    ensures FormsOf(g + [s], known) + RowOf(FormsOf(rest[n..], known), limit)
            == FormsOf(g, known) + RowOf(FormsOf(rest, known), limit)
  {
    hide FormOf, RowOf, Bundle;
    var fs := FormsOf(rest, known);
    FormsAppend(g, [s], known);
    FormsSlice(rest, 0, n, known);
    FormsSlice(rest, n, |rest|, known);
    assert rest[0..n] == rest[..n] && rest[n..|rest|] == rest[n..];
    assert fs[0..n] == fs[..n] && fs[n..|rest|] == fs[n..];
    assert FormsOf([s], known) == [FormOf(s, known)];
    RowUnfold(fs, n, limit);
    Regroup(FormsOf(g, known), [Bundle(fs[..n])], RowOf(fs[n..], limit));
  }

  lemma Regroup(a: seq<Form>, b: seq<Form>, c: seq<Form>)
    ensures a + b + c == a + (b + c)
  {
  }

  lemma RowUnfold(fs: seq<Form>, n: nat, limit: nat)
    requires limit >= 2 && 0 < n <= |fs| && n == (if limit < |fs| then limit else |fs|)
    ensures RowOf(fs, limit) == [Bundle(fs[..n])] + RowOf(fs[n..], limit)
  {
    hide Bundle;
    if n == |fs| {
      assert fs[..n] == fs && fs[n..] == [];
    }
  }

  lemma PassApart(node: PsiNode, ss: seq<Shape>, limit: nat, high: nat)
    requires Pass(node, ss, limit, high)
    ensures node !in NodesOf(ss) && Kept(ss, limit) && Brood(node, ss) && Indexed(NodesOf(ss), high)
  {
  }

  /** The `while` loop of one node. */
  method GroupChildren(node: PsiNode, nextIndex: nat, limit: nat, ghost ss: seq<Shape>, ghost known: set<PsiNode>)
    returns (nextIndex': nat, ghost g: seq<Shape>)
    requires limit >= 2 && node.children == Heads(ss) && Pass(node, ss, limit, nextIndex) && |ss| != 1
    modifies {node}`children, NodesOf(ss)`parent
    ensures node.children == Heads(g) && Pass(node, g, limit, nextIndex') && nextIndex' >= nextIndex
    ensures |g| <= limit && |g| != 1 && LeavesOf(g) == LeavesOf(ss) && (ss == [] <==> g == [])
    ensures |ss| <= limit ==> g == ss && nextIndex' == nextIndex
    ensures FormsOf(g, known) == Grouped(FormsOf(ss, known), limit)
    ensures forall w :: w in NodesOf(g) ==> w in NodesOf(ss) || (fresh(w) && w.index >= nextIndex)
  {
    hide NodesOf, LeavesOf, Pass, FormOf, FormsOf, RowOf;
    nextIndex', g := nextIndex, ss;
    while |node.children| > limit
      invariant node.children == Heads(g) && Pass(node, g, limit, nextIndex') && nextIndex' >= nextIndex
      invariant |g| != 1 && LeavesOf(g) == LeavesOf(ss) && (ss == [] <==> g == [])
      invariant |ss| <= limit ==> g == ss && nextIndex' == nextIndex
      invariant Grouped(FormsOf(g, known), limit) == Grouped(FormsOf(ss, known), limit)
      invariant forall w :: w in NodesOf(g) ==> w in NodesOf(ss) || (fresh(w) && w.index >= nextIndex)
      decreases |g|
    {
      var grouped;
      grouped, nextIndex', g := GroupOnce(node, nextIndex', limit, g, known);
      PassApart(node, g, limit, nextIndex');
      node.children := grouped;
    }
  }

  // ------------------------------------------------- the recursion

  /** The children of `node` while they are being rebalanced one by one: `done` within the
      limit, `rest` as found. */
  ghost predicate Midway(node: PsiNode, done: seq<Shape>, rest: seq<Shape>, limit: nat, high: nat)
    reads NodesOf(done + rest)
  {
    && Brood(node, done + rest) && BushyOf(done + rest) && FanOf(done, limit)
    && Indexed(NodesOf(done + rest) + {node}, high)
  }

  lemma MidwayStart(shape: Shape, limit: nat, high: nat)
    requires Proper(shape) && Bushy(shape) && InHeap(shape) && Indexed(Nodes(shape), high)
    ensures Midway(shape.node, [], shape.kids, limit, high) && [] + shape.kids == shape.kids
    ensures shape.node.children == Heads(shape.kids)
  {
    assert [] + shape.kids == shape.kids;
    assert NodesOf(shape.kids) + {shape.node} == Nodes(shape);
  }

  lemma MidwayNext(node: PsiNode, done: seq<Shape>, c: Shape, rest: seq<Shape>, limit: nat, high: nat)
    requires Midway(node, done, [c] + rest, limit, high)
    ensures Brood(node, done) && Brood(node, rest) && NodesOf(done) !! NodesOf(rest)
    ensures Nodes(c) !! NodesOf(done) && Nodes(c) !! NodesOf(rest) && node !in Nodes(c)
    ensures Proper(c) && Bushy(c) && InHeap(c) && Indexed(Nodes(c), high) && c.node.parent == node
    ensures BushyOf(done) && BushyOf(rest)
    ensures NodesOf(done + ([c] + rest)) == NodesOf(done) + Nodes(c) + NodesOf(rest)
  {
    hide NodesOf, Nodes, BushyOf, ProperOf, AllInHeap, InHeap, Proper, Bushy;
    Single(c);
    BroodAppend(node, done, [c] + rest);
    BroodAppend(node, [c], rest);
    NodesOfAppend(done, [c] + rest);
    NodesOfAppend([c], rest);
    BushyOfAppend(done, [c] + rest);
    BushyOfAppend([c], rest);
    assert [c][0] == c;
  }

  lemma MidwayApart(node: PsiNode, done: seq<Shape>, c: Shape, rest: seq<Shape>, limit: nat, high: nat)
    requires Midway(node, done, [c] + rest, limit, high)
    ensures node !in Nodes(c)
  {
    MidwayNext(node, done, c, rest, limit, high);
  }

  /** A rebalanced child takes its place. */
  lemma MidwayReplace(node: PsiNode, done: seq<Shape>, c: Shape, c': Shape, rest: seq<Shape>, limit: nat, low: nat, high: nat)
    requires Brood(node, done) && Brood(node, rest) && NodesOf(done) !! NodesOf(rest)
    requires Nodes(c) !! NodesOf(done) && Nodes(c) !! NodesOf(rest) && node !in Nodes(c)
    requires BushyOf(done) && BushyOf(rest) && FanOf(done, limit)
    requires Indexed(NodesOf(done) + Nodes(c) + NodesOf(rest) + {node}, low) && low <= high
    requires Proper(c') && Bushy(c') && InHeap(c') && Fan(c', limit) && Indexed(Nodes(c'), high) && c'.node.parent == node
    requires forall w :: w in Nodes(c') ==> w in Nodes(c) || w.index >= low
    ensures Midway(node, done + [c'], rest, limit, high)
    ensures NodesOf(done + [c'] + rest) == NodesOf(done) + Nodes(c') + NodesOf(rest)
  {
    hide NodesOf, Nodes, BushyOf, FanOf, ProperOf, AllInHeap, InHeap, Proper, Bushy, Fan, Indexed;
    assert NodesOf(done) + Nodes(c) + NodesOf(rest) + {node} == NodesOf(done) + NodesOf(rest) + {node} + Nodes(c);
    IndexedReplace(NodesOf(done) + NodesOf(rest) + {node}, Nodes(c), Nodes(c'), low, high);
    Single(c');
    SingleFan(c', limit);
    NodesOfAppend(done, [c']);
    NodesOfAppend(done + [c'], rest);
    BroodAppend(node, done, [c']);
    BroodAppend(node, done + [c'], rest);
    BushyOfAppend(done, [c']);
    BushyOfAppend(done + [c'], rest);
    FanOfAppend(done, [c'], limit);
    assert NodesOf(done) + Nodes(c') + NodesOf(rest) + {node} == NodesOf(done) + NodesOf(rest) + {node} + Nodes(c');
  }

  lemma IndexedReplace(a: set<PsiNode>, b: set<PsiNode>, b': set<PsiNode>, low: nat, high: nat)
    requires Indexed(a + b, low) && a !! b && Indexed(b', high) && low <= high
    requires forall w :: w in b' ==> w in b || w.index >= low
    ensures Indexed(a + b', high) && a !! b'
  {
    forall w | w in b' ensures w !in a { }
  }

  /** `rebalance`: the subtree below `node`, with the same node on top and the same leaves in
      the same order, now within the limit everywhere. */
  method Rebalance(node: PsiNode, nextIndex: nat, limit: nat, ghost shape: Shape, ghost known: set<PsiNode>)
    returns (nextIndex': nat, ghost shape': Shape)
    requires limit >= 2 && shape.node == node && Proper(shape) && Bushy(shape) && InHeap(shape)
    requires Indexed(Nodes(shape), nextIndex) && Nodes(shape) <= known
    modifies Nodes(shape)`children, NodesOf(shape.kids)`parent
    ensures FormOf(shape', known) == Regrouped(shape, limit)
    ensures shape'.node == node && Proper(shape') && Bushy(shape') && InHeap(shape') && Fan(shape', limit)
    ensures Leaves(shape') == Leaves(shape) && nextIndex' >= nextIndex && Indexed(Nodes(shape'), nextIndex')
    ensures forall w :: w in Nodes(shape') ==> w in Nodes(shape) || (fresh(w) && w.index >= nextIndex)
    ensures Fan(shape, limit) ==> shape' == shape && nextIndex' == nextIndex
    decreases shape, 1
  {
    ghost var done;
    assert node in known;
    nextIndex', done := RebalanceChildren(node, nextIndex, limit, shape, known);
    ghost var middle := nextIndex';
    MidwayEnd(node, done, limit, middle);
    hide NodesOf, Nodes, LeavesOf, Leaves, Midway, Proper, Bushy, InHeap, Indexed, Pass, Fan, FanOf, FormsOf, Grouped, RegroupedAll;
    ghost var g;
    nextIndex', g := GroupChildren(node, nextIndex', limit, done, known);
    shape' := Shape(node, g);
    WholeNode(shape, done, g, limit, middle, nextIndex');
  }

  /** The finished node over its finished children. */
  lemma WholeNode(shape: Shape, done: seq<Shape>, g: seq<Shape>, limit: nat, middle: nat, high: nat)
    requires Pass(shape.node, g, limit, high) && shape.node.children == Heads(g) && |g| <= limit && |g| != 1
    requires LeavesOf(g) == LeavesOf(done) == LeavesOf(shape.kids) && |done| == |shape.kids| && (done == [] <==> g == [])
    requires Indexed(NodesOf(done) + {shape.node}, middle) && middle <= high
    requires forall w :: w in NodesOf(g) ==> w in NodesOf(done) || w.index >= middle
    ensures var s := Shape(shape.node, g);
      && Proper(s) && Bushy(s) && InHeap(s) && Fan(s, limit) && Leaves(s) == Leaves(shape)
      && Indexed(Nodes(s), high)
  {
    var s := Shape(shape.node, g);
    assert Nodes(s) == NodesOf(g) + {shape.node};
    hide NodesOf, Nodes, LeavesOf, FanOf, BushyOf, ProperOf, AllInHeap, Indexed;
  }

  /** The loop over the children. */
  method RebalanceChildren(node: PsiNode, nextIndex: nat, limit: nat, ghost shape: Shape, ghost known: set<PsiNode>)
    returns (nextIndex': nat, ghost done: seq<Shape>)
    requires limit >= 2 && shape.node == node && Proper(shape) && Bushy(shape) && InHeap(shape)
    requires Indexed(Nodes(shape), nextIndex) && Nodes(shape) <= known
    modifies NodesOf(shape.kids)`children, NodesOf(shape.kids)`parent
    ensures FormsOf(done, known) == RegroupedAll(shape.kids, limit)
    ensures node.children == Heads(done) && |done| == |shape.kids| && Midway(node, done, [], limit, nextIndex')
    ensures LeavesOf(done) == LeavesOf(shape.kids) && nextIndex' >= nextIndex
    ensures forall w :: w in NodesOf(done) ==> w in NodesOf(shape.kids) || (fresh(w) && w.index >= nextIndex)
    ensures FanOf(shape.kids, limit) ==> done == shape.kids && nextIndex' == nextIndex
    decreases shape, 0
  {
    MidwayStart(shape, limit, nextIndex);
    hide NodesOf, Nodes, Leaves, LeavesOf, Midway, Proper, Bushy, InHeap, Indexed, ProperOf, BushyOf, AllInHeap, Fan, FanOf, Heads,
      FormOf, FormsOf, Regrouped, RegroupedAll, Partly;
    nextIndex', done := nextIndex, [];
    PartlyNone(shape, limit, known);
    var kids := node.children;
    for i := 0 to |kids|
      invariant node.children == kids == Heads(shape.kids) && Partly(shape, done, i, limit, known)
      invariant Midway(node, done, shape.kids[i..], limit, nextIndex') && nextIndex' >= nextIndex
      invariant forall w :: w in NodesOf(done + shape.kids[i..]) ==> w in NodesOf(shape.kids) || (fresh(w) && w.index >= nextIndex)
      invariant FanOf(shape.kids, limit) ==> nextIndex' == nextIndex
    {
      ghost var c';
      PartlyFacts(shape, done, i, limit, known);
      nextIndex', c' := RebalanceAt(node, i, kids[i], nextIndex', limit, shape, done, known);
      PartlyNext(shape, done, i, limit, known, c');
      done := done + [c'];
    }
    PartlyAll(shape, done, limit, known);
  }

  /** The first i children are done: the same leaves in all, the forms that regrouping gives,
      and the trees as they were if all are within the limit. */
  ghost predicate Partly(shape: Shape, done: seq<Shape>, i: nat, limit: nat, known: set<PsiNode>)
    requires limit >= 2
  {
    && |done| == i <= |shape.kids| && Heads(done) == Heads(shape.kids)[..i]
    && LeavesOf(done + shape.kids[i..]) == LeavesOf(shape.kids)
    && (FanOf(shape.kids, limit) ==> done == shape.kids[..i])
    && forall j :: 0 <= j < i ==> FormOf(done[j], known) == Regrouped(shape.kids[j], limit)
  }

  lemma PartlyNone(shape: Shape, limit: nat, known: set<PsiNode>)
    requires limit >= 2
    ensures Partly(shape, [], 0, limit, known) && shape.kids[0..] == shape.kids && [] + shape.kids[0..] == shape.kids
  {
    hide LeavesOf, FanOf;
    assert [] + shape.kids[0..] == shape.kids;
  }

  lemma PartlyFacts(shape: Shape, done: seq<Shape>, i: nat, limit: nat, known: set<PsiNode>)
    requires limit >= 2 && Partly(shape, done, i, limit, known)
    ensures |done| == i <= |shape.kids| && Heads(done) == Heads(shape.kids)[..i]
    ensures FanOf(shape.kids, limit) ==> done == shape.kids[..i]
  {
    hide LeavesOf, FanOf;
  }

  lemma PartlyNext(shape: Shape, done: seq<Shape>, i: nat, limit: nat, known: set<PsiNode>, c': Shape)
    requires limit >= 2 && Partly(shape, done, i, limit, known) && i < |shape.kids|
    requires Heads(done + [c']) == Heads(shape.kids)[..i + 1]
    requires LeavesOf(done + [c'] + shape.kids[i + 1..]) == LeavesOf(done + shape.kids[i..])
    requires FormOf(c', known) == Regrouped(shape.kids[i], limit)
    requires FanOf(shape.kids, limit) && done == shape.kids[..i] ==> done + [c'] == shape.kids[..i + 1]
    ensures Partly(shape, done + [c'], i + 1, limit, known)
  {
    hide LeavesOf, FanOf, Heads, FormOf, Regrouped;
  }

  lemma PartlyAll(shape: Shape, done: seq<Shape>, limit: nat, known: set<PsiNode>)
    requires limit >= 2 && Partly(shape, done, |shape.kids|, limit, known)
    ensures |done| == |shape.kids| && Heads(done) == Heads(shape.kids) && LeavesOf(done) == LeavesOf(shape.kids)
    ensures FanOf(shape.kids, limit) ==> done == shape.kids
    ensures FormsOf(done, known) == RegroupedAll(shape.kids, limit)
    ensures done + shape.kids[|shape.kids|..] == done && shape.kids[|shape.kids|..] == []
  {
    hide LeavesOf, FanOf, FormOf, Regrouped;
    assert done + shape.kids[|shape.kids|..] == done;
    assert shape.kids[..|shape.kids|] == shape.kids;
  }

  /** The i-th child. */
  method RebalanceAt(node: PsiNode, i: nat, child: PsiNode, nextIndex: nat, limit: nat, ghost shape: Shape, ghost done: seq<Shape>,
                     ghost known: set<PsiNode>)
    returns (nextIndex': nat, ghost c': Shape)
    requires limit >= 2 && shape.node == node && i < |shape.kids| && child == shape.kids[i].node && |done| == i
    requires node.children == Heads(shape.kids) && Heads(done) == node.children[..i]
    requires Midway(node, done, shape.kids[i..], limit, nextIndex) && NodesOf(shape.kids) <= known
    modifies NodesOf(shape.kids)`children, NodesOf(shape.kids)`parent
    ensures node.children == old(node.children) && Heads(done + [c']) == node.children[..i + 1]
    ensures Midway(node, done + [c'], shape.kids[i + 1..], limit, nextIndex') && nextIndex' >= nextIndex
    ensures LeavesOf(done + [c'] + shape.kids[i + 1..]) == LeavesOf(done + shape.kids[i..])
    ensures forall w :: w in NodesOf(done + [c'] + shape.kids[i + 1..]) ==>
      w in NodesOf(done + shape.kids[i..]) || (fresh(w) && w.index >= nextIndex)
    ensures FormOf(c', known) == Regrouped(shape.kids[i], limit)
    ensures FanOf(shape.kids, limit) && done == shape.kids[..i] ==>
      done + [c'] == shape.kids[..i + 1] && nextIndex' == nextIndex
    decreases shape.kids[i], 3
  {
    FanNone(shape.kids, limit);
    NodesOfMember(shape.kids, i);
    ghost var c, rest := shape.kids[i], shape.kids[i + 1..];
    hide NodesOf, Nodes, Leaves, LeavesOf, Midway, Fan, FanOf, Heads, FormOf, Regrouped;
    assert shape.kids[i..] == [c] + rest;
    MidwayApart(node, done, c, rest, limit, nextIndex);
    nextIndex', c' := RebalanceOne(node, child, nextIndex, limit, done, c, rest, known);
    assert node.children[..i + 1] == node.children[..i] + [child];
  }

  lemma {:induction false} FanNone(ss: seq<Shape>, limit: nat)
    ensures FanOf(ss, limit) <==> forall i :: 0 <= i < |ss| ==> Fan(ss[i], limit)
    decreases |ss|
  {
    if ss != [] {
      FanNone(ss[1..], limit);
      assert forall i :: 0 < i < |ss| ==> ss[i] == ss[1..][i - 1];
    }
  }

  /** One child; its siblings on both sides stay as they are. */
  method RebalanceOne(node: PsiNode, child: PsiNode, nextIndex: nat, limit: nat,
                      ghost done: seq<Shape>, ghost c: Shape, ghost rest: seq<Shape>, ghost known: set<PsiNode>)
    returns (nextIndex': nat, ghost c': Shape)
    requires limit >= 2 && child == c.node && Midway(node, done, [c] + rest, limit, nextIndex) && Nodes(c) <= known
    modifies Nodes(c)`children, NodesOf(c.kids)`parent
    ensures c'.node == child && Midway(node, done + [c'], rest, limit, nextIndex') && nextIndex' >= nextIndex
    ensures LeavesOf(done + [c'] + rest) == LeavesOf(done + ([c] + rest))
    ensures forall w :: w in NodesOf(done + [c'] + rest) ==>
      w in NodesOf(done + ([c] + rest)) || (fresh(w) && w.index >= nextIndex)
    ensures Fan(c, limit) ==> c' == c && nextIndex' == nextIndex
    ensures FormOf(c', known) == Regrouped(c, limit)
    decreases c, 2
  {
    MidwayNext(node, done, c, rest, limit, nextIndex);
    assert FanOf(done, limit) && Indexed(NodesOf(done) + Nodes(c) + NodesOf(rest) + {node}, nextIndex);
    hide NodesOf, Nodes, Leaves, LeavesOf, Midway, Proper, Bushy, InHeap, Indexed, ProperOf, BushyOf, AllInHeap, Fan, FanOf,
      FormOf, Regrouped;
    NodesOfAllocated(done);
    NodesOfAllocated(rest);
    nextIndex', c' := Rebalance(child, nextIndex, limit, c, known);
    MidwayReplace(node, done, c, c', rest, limit, nextIndex, nextIndex');
    ReplacedLeaves(done, c, c', rest);
  }

  lemma ReplacedLeaves(done: seq<Shape>, c: Shape, c': Shape, rest: seq<Shape>)
    requires Leaves(c') == Leaves(c)
    ensures LeavesOf(done + [c'] + rest) == LeavesOf(done + ([c] + rest))
  {
    hide Leaves, LeavesOf;
    Single(c);
    Single(c');
    LeavesOfAppend(done, [c']);
    LeavesOfAppend(done + [c'], rest);
    LeavesOfAppend([c], rest);
    LeavesOfAppend(done, [c] + rest);
  }

  lemma MidwayEnd(node: PsiNode, done: seq<Shape>, limit: nat, high: nat)
    requires Midway(node, done, [], limit, high)
    ensures Pass(node, done, limit, high) && Indexed(NodesOf(done) + {node}, high)
  {
    assert done + [] == done;
  }

  /** `_root`: follows parent links to the top; `path` witnesses that they end. */
  method RootOf(start: PsiNode, ghost path: seq<PsiNode>) returns (root: PsiNode)
    requires path != [] && path[0] == start && path[|path| - 1].parent == null
    requires forall t :: 0 <= t < |path| - 1 ==> path[t].parent == path[t + 1]
    ensures root == path[|path| - 1]
  {
    root := start;
    ghost var t := 0;
    while root.parent != null
      invariant t < |path| && root == path[t] && (t == |path| - 1 || root.parent == path[t + 1])
      decreases |path| - t
    {
      root, t := root.parent, t + 1;
    }
  }

  /** `_rebalance_psi_tree`. */
  method RebalanceTree(root: PsiNode, nextIndex: nat, maxCluster: int, ghost shape: Shape)
    returns (top: PsiNode, nextIndex': nat, ghost shape': Shape)
    requires Tree(root, shape) && Indexed(Nodes(shape), nextIndex)
    modifies Nodes(shape)`children, NodesOf(shape.kids)`parent
    ensures top == root && Tree(root, shape') && Fan(shape', Limit(maxCluster)) && Leaves(shape') == Leaves(shape)
    ensures nextIndex' >= nextIndex && Indexed(Nodes(shape'), nextIndex')
    ensures forall w :: w in Nodes(shape') ==> w in Nodes(shape) || fresh(w)
    ensures Fan(shape, Limit(maxCluster)) ==> shape' == shape && nextIndex' == nextIndex
    ensures FormOf(shape', Nodes(shape)) == Regrouped(shape, Limit(maxCluster))
    ensures Named(Clades(shape'), Nodes(shape)) == Clades(shape) && Clades(shape) <= Clades(shape')
  {
    assert root !in NodesOf(shape.kids);
    nextIndex', shape' := Rebalance(root, nextIndex, Limit(maxCluster), shape, Nodes(shape));
    NodesAllocated(shape');
    LeavesAreNodes(shape);
    RegroupedTree(shape, shape', Limit(maxCluster));
    top := RootOf(root, [root]);
  }

  /** `max(2, int(max_cluster or 2))`. */
  function Limit(maxCluster: int): (limit: nat)
    ensures limit >= 2 && (maxCluster >= 2 ==> limit == maxCluster) && (maxCluster < 2 ==> limit == 2)
  {
    if maxCluster < 2 then 2 else maxCluster
  }
}
