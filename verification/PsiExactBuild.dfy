/** `_build_exact_psi_structure`, its loops over pairs, array entries and child lists. */
module PsiExactBuild {
  import opened MergeHierarchy
  import opened PsiForest
  import opened PsiTree
  import opened PsiInvariant
  import opened PsiUnionFind
  import opened PsiNodes
  import opened PsiExact
  import TS = PsiTreeShape

  // ------------------------------------------------- ranked pairs

  /** A ranking of n leaves lists valid pairs and leaves no pair out; order is free. */
  ghost predicate IsRanking(n: nat, pairs: seq<Pair>) {
    && (forall t :: 0 <= t < |pairs| ==> pairs[t].0 < n && pairs[t].1 < n)
    && (forall a: nat, b: nat :: b < a < n ==> (a, b) in pairs)
  }

  lemma RankedPair(n: nat, pairs: seq<Pair>, t: nat)
    requires IsRanking(n, pairs) && t < |pairs|
    ensures pairs[t].0 < n && pairs[t].1 < n
  {
  }

  lemma PairLinked(log: seq<Pair>, t: nat)
    requires t < |log|
    ensures Linked(log, log[t].0, log[t].1)
  {
    var g, i, j := log[..t], log[t].0, log[t].1;
    PairLinks(g, i, j);
    MeetingIsFinal(g + [(i, j)], log[t + 1..], 0, i, j);
    assert log == g + [(i, j)] + log[t + 1..];
  }

  /** Once every pair has been processed one representative is left. */
  lemma RankingConnects(f: Forest, tree: seq<int>, log: seq<Pair>)
    requires Sound(f, tree, log) && IsRanking(|f.rank|, log) && |f.rank| > 0
    ensures |Roots(f)| == 1
  {
    var r := Root(f, 0);
    forall x: nat | x < |f.rank| ensures Root(f, x) == r {
      if x > 0 {
        assert (x, 0) in log;
        var t :| 0 <= t < |log| && log[t] == (x, 0);
        PairLinked(log, t);
      }
    }
    forall x | x in Roots(f) ensures x == r {
      assert Root(f, x) == x;
    }
    assert Roots(f) == {r};
  }

  /** Runs the union-find over the pairs until n - 1 of them have merged something. */
  method MergeAll(n: nat, pairs: seq<Pair>) returns (uf: UnionFind, merges: nat)
    requires n >= 1 && IsRanking(n, pairs)
    ensures fresh(uf) && uf.Valid() && |uf.rank| == n && uf.log <= pairs
    ensures |Roots(uf.State())| == 1 && merges == n - 1
  {
    hide Sound, Roots, IsRanking;
    uf := new UnionFind(n);
    merges := 0;
    for at := 0 to |pairs|
      invariant fresh(uf) && uf.Valid() && |uf.rank| == n && uf.log == pairs[..at]
      invariant |Roots(uf.State())| + merges == n
      invariant at > 0 ==> merges != n - 1
    {
      RankedPair(n, pairs, at);
      var merged := uf.Union(pairs[at].0, pairs[at].1);
      assert pairs[..at + 1] == pairs[..at] + [pairs[at]];
      if merged {
        merges := merges + 1;
      }
      if merges == n - 1 {
        return;
      }
    }
    assert pairs[..|pairs|] == pairs;
    assert uf.log == pairs;
    RankingConnects(uf.State(), uf.tree, uf.log);
  }

  // ------------------------------------------------- node objects

  /** Input nodes keep their places; every other entry has a bare node of its own, with an
      index of its own between `low` and `high`. */
  ghost predicate Table(nodes: seq<PsiNode>, local: map<nat, PsiNode>, low: nat, high: nat)
    reads local.Values
  {
    && low <= high
    && (forall id: nat :: id < |nodes| ==> id in local && local[id] == nodes[id])
    && (forall id: nat {:trigger local[id]} :: id in local && id >= |nodes| ==> Bare(local[id], low, high))
    && (forall d: nat, e: nat {:trigger local[d], local[e]} :: d in local && e in local && d < e && e >= |nodes| ==>
         local[d] != local[e] && (d >= |nodes| ==> local[d].index != local[e].index))
  }

  ghost predicate Bare(node: PsiNode, low: nat, high: nat)
    reads node
  {
    low <= node.index < high && node.text == "" && node.children == [] && node.parent == null
  }

  lemma TableAdd(nodes: seq<PsiNode>, local: map<nat, PsiNode>, id: nat, node: PsiNode, low: nat, high: nat)
    requires Table(nodes, local, low, high) && id !in local && node !in local.Values
    requires node.index == high && Bare(node, low, high + 1)
    ensures Table(nodes, local[id := node], low, high + 1)
  {
    var local' := local[id := node];
    forall d: nat, e: nat {:trigger local'[d], local'[e]} | d in local' && e in local' && d < e && e >= |nodes|
      ensures local'[d] != local'[e] && (d >= |nodes| ==> local'[d].index != local'[e].index)
    {
      assert d in local ==> local[d] in local.Values;
      assert e in local ==> local[e] in local.Values;
    }
  }

  /** `if idx not in local_nodes`: gives the entry a node. */
  method EnsureNode(ghost nodes: seq<PsiNode>, local: map<nat, PsiNode>, id: nat, ghost low: nat, nextIndex: nat)
    returns (local': map<nat, PsiNode>, nextIndex': nat)
    requires Table(nodes, local, low, nextIndex) && low <= nextIndex
    ensures Table(nodes, local', low, nextIndex')
    ensures local'.Keys == local.Keys + {id} && fresh(local'.Values - local.Values)
    ensures nextIndex' == nextIndex + |local'| - |local| && nextIndex' >= nextIndex
  {
    hide Table;
    local', nextIndex' := local, nextIndex;
    if id !in local {
      var node := new PsiNode(nextIndex, "", []);
      TableAdd(nodes, local, id, node, low, nextIndex);
      local' := local[id := node];
      nextIndex' := nextIndex + 1;
      assert local'.Values - local.Values <= {node};
    }
    assert local'.Keys == local.Keys + {id};
  }

  /** Child lists collected from the first m entries. */
  ghost predicate KidTable(tree: seq<int>, m: nat, kidsOf: map<nat, seq<nat>>) {
    && m <= |tree|
    && (forall id: nat {:trigger id in kidsOf} :: id in kidsOf <==> TS.KidIds(tree, id, m) != [])
    && (forall id: nat {:trigger kidsOf[id]} :: id in kidsOf ==> kidsOf[id] == TS.KidIds(tree, id, m))
  }

  ghost predicate Met(tree: seq<int>, n: nat, m: nat, id: nat)
    requires m <= |tree|
  {
    id < n || id < m || TS.KidIds(tree, id, m) != []
  }

  lemma KidTableStep(tree: seq<int>, m: nat, kidsOf: map<nat, seq<nat>>)
    requires m < |tree| && KidTable(tree, m, kidsOf)
    ensures tree[m] == -1 ==> KidTable(tree, m + 1, kidsOf)
    ensures tree[m] >= 0 ==>
      var p: nat := tree[m]; KidTable(tree, m + 1, kidsOf[p := (if p in kidsOf then kidsOf[p] else []) + [m]])
  {
  }

  lemma AllMet(tree: seq<int>, n: nat, id: nat)
    requires n <= |tree| && forall c :: 0 <= c < |tree| ==> -1 <= tree[c] < |tree|
    ensures Met(tree, n, |tree|, id) <==> id < |tree|
  {
    if TS.Kids(tree, id) != [] {
      assert tree[TS.Kids(tree, id)[0]] == id;
    }
  }

  /** The table before the first entry: `{idx: node for idx, node in enumerate(nodes)}`. */
  method InputNodes(nodes: seq<PsiNode>, low: nat) returns (local: map<nat, PsiNode>)
    ensures Table(nodes, local, low, low) && |local| == |nodes| && local.Values <= set w | w in nodes
    ensures forall id: nat :: id in local <==> id < |nodes|
  {
    local := map id: nat | id < |nodes| :: nodes[id];
    assert local.Keys == Upto(|nodes|);
  }

  /** The entries that have a node once m array entries have been read. */
  ghost predicate Domain(tree: seq<int>, n: nat, m: nat, local: map<nat, PsiNode>)
    requires m <= |tree|
  {
    forall id: nat {:trigger id in local} :: id in local <==> Met(tree, n, m, id)
  }

  lemma MetStep(tree: seq<int>, n: nat, m: nat, id: nat)
    requires m < |tree|
    ensures Met(tree, n, m + 1, id) <==> Met(tree, n, m, id) || id == m || (tree[m] >= 0 && id == tree[m])
  {
  }

  lemma DomainStep(tree: seq<int>, n: nat, m: nat, local: map<nat, PsiNode>, local': map<nat, PsiNode>)
    requires m < |tree| && Domain(tree, n, m, local)
    requires local'.Keys == local.Keys + {m} + if tree[m] >= 0 then {tree[m]} else {}
    ensures Domain(tree, n, m + 1, local')
  {
    hide Met;
    forall id: nat ensures id in local' <==> Met(tree, n, m + 1, id) {
      MetStep(tree, n, m, id);
      assert id in local' <==> id in local'.Keys;
    }
  }

  /** Nodes for an array entry and for its parent, if it has one. */
  method EnsureNodes(nodes: seq<PsiNode>, local: map<nat, PsiNode>, child: nat, parent: int, ghost low: nat, nextIndex: nat)
    returns (local': map<nat, PsiNode>, nextIndex': nat)
    requires Table(nodes, local, low, nextIndex) && low <= nextIndex && parent >= -1
    ensures Table(nodes, local', low, nextIndex')
    ensures local'.Keys == local.Keys + {child} + if parent >= 0 then {parent} else {}
    ensures fresh(local'.Values - local.Values)
    ensures nextIndex' == nextIndex + |local'| - |local| && nextIndex' >= nextIndex
  {
    hide Table;
    local', nextIndex' := EnsureNode(nodes, local, child, low, nextIndex);
    if parent != -1 {
      local', nextIndex' := EnsureNode(nodes, local', parent, low, nextIndex');
    }
  }

  /** One array entry: nodes, and its place in the child list of its parent. */
  method MeetEntry(nodes: seq<PsiNode>, tree: seq<int>, child: nat, local: map<nat, PsiNode>, kidsOf: map<nat, seq<nat>>,
                   ghost low: nat, nextIndex: nat)
    returns (local': map<nat, PsiNode>, kidsOf': map<nat, seq<nat>>, nextIndex': nat)
    requires child < |tree| && -1 <= tree[child] < |tree| && low <= nextIndex
    requires Table(nodes, local, low, nextIndex) && KidTable(tree, child, kidsOf) && Domain(tree, |nodes|, child, local)
    ensures Table(nodes, local', low, nextIndex') && KidTable(tree, child + 1, kidsOf')
    ensures Domain(tree, |nodes|, child + 1, local')
    ensures fresh(local'.Values - local.Values)
    ensures nextIndex' == nextIndex + |local'| - |local| && nextIndex' >= nextIndex
  {
    hide Table, Met, KidTable, Domain;
    KidTableStep(tree, child, kidsOf);
    local', nextIndex' := EnsureNodes(nodes, local, child, tree[child], low, nextIndex);
    DomainStep(tree, |nodes|, child, local, local');
    kidsOf' := kidsOf;
    if tree[child] != -1 {
      var parent: nat := tree[child];
      kidsOf' := kidsOf[parent := (if parent in kidsOf then kidsOf[parent] else []) + [child]];
    }
  }

  /** First loop of the exact build: nodes for all entries, children grouped by parent. */
  method CreateNodes(nodes: seq<PsiNode>, tree: seq<int>, nextIndex: nat)
    returns (local: map<nat, PsiNode>, kidsOf: map<nat, seq<nat>>, nextIndex': nat)
    requires |nodes| <= |tree|
    requires forall c :: 0 <= c < |tree| ==> -1 <= tree[c] < |tree|
    ensures Table(nodes, local, nextIndex, nextIndex') && KidTable(tree, |tree|, kidsOf)
    ensures forall id: nat :: id in local <==> id < |tree|
    ensures fresh(local.Values - set w | w in nodes)
    ensures nextIndex' == nextIndex + |tree| - |nodes|
  {
    hide Table, KidTable, Met;
    local := InputNodes(nodes, nextIndex);
    kidsOf, nextIndex' := map[], nextIndex;
    NothingMet(tree, |nodes|);
    for child := 0 to |tree|
      invariant Table(nodes, local, nextIndex, nextIndex') && KidTable(tree, child, kidsOf)
      invariant Domain(tree, |nodes|, child, local)
      invariant fresh(local.Values - set w | w in nodes)
      invariant nextIndex' == nextIndex + |local| - |nodes| && nextIndex' >= nextIndex
    {
      local, kidsOf, nextIndex' := MeetEntry(nodes, tree, child, local, kidsOf, nextIndex, nextIndex');
    }
    forall id: nat ensures Met(tree, |nodes|, |tree|, id) <==> id < |tree| { AllMet(tree, |nodes|, id); }
    assert local.Keys == Upto(|tree|);
  }

  lemma NothingMet(tree: seq<int>, n: nat)
    ensures KidTable(tree, 0, map[]) && forall id: nat :: Met(tree, n, 0, id) <==> id < n
  {
  }

  // ------------------------------------------------- links

  function NodesAt(local: map<nat, PsiNode>, ids: seq<nat>): (ns: seq<PsiNode>)
    requires forall i :: 0 <= i < |ids| ==> ids[i] in local
    ensures |ns| == |ids| && forall i :: 0 <= i < |ids| ==> ns[i] == local[ids[i]]
  {
    seq(|ids|, i requires 0 <= i < |ids| => local[ids[i]])
  }

  /** Different entries have different nodes. */
  ghost predicate OneEach(local: map<nat, PsiNode>) {
    forall d, e {:trigger local[d], local[e]} :: d in local && e in local && d != e ==> local[d] != local[e]
  }

  /** One parent: its child list, then the parent link of every child. */
  method LinkParent(local: map<nat, PsiNode>, p: nat, ids: seq<nat>)
    requires p in local && OneEach(local) && forall i :: 0 <= i < |ids| ==> ids[i] in local
    modifies local.Values`children, local.Values`parent
    ensures local[p].children == NodesAt(local, ids)
    ensures forall id :: id in local && id != p ==> local[id].children == old(local[id].children)
    ensures forall id :: id in local ==> local[id].parent == if id in ids then local[p] else old(local[id].parent)
  {
    local[p].children := NodesAt(local, ids);
    for i := 0 to |ids|
      invariant local[p].children == NodesAt(local, ids)
      invariant forall id :: id in local && id != p ==> local[id].children == old(local[id].children)
      invariant forall id :: id in local ==>
        local[id].parent == if id in ids[..i] then local[p] else old(local[id].parent)
    {
      local[ids[i]].parent := local[p];
      assert ids[..i + 1] == ids[..i] + [ids[i]];
    }
    assert ids[..|ids|] == ids;
  }

  /** The table covers exactly the array. */
  ghost predicate Covers(local: map<nat, PsiNode>, tree: seq<int>) {
    && (forall id: nat {:trigger id in local} :: id in local <==> id < |tree|)
    && (forall c {:trigger tree[c]} :: 0 <= c < |tree| ==> -1 <= tree[c] < |tree|)
  }

  ghost function KidNodes(local: map<nat, PsiNode>, tree: seq<int>, id: nat): (ns: seq<PsiNode>)
    requires Covers(local, tree)
    ensures |ns| == |TS.Kids(tree, id)|
    ensures forall i :: 0 <= i < |ns| ==> TS.Kids(tree, id)[i] in local && ns[i] == local[TS.Kids(tree, id)[i]]
  {
    NodesAt(local, TS.Kids(tree, id))
  }

  ghost function ParentNode(local: map<nat, PsiNode>, tree: seq<int>, c: nat): PsiNode
    requires Covers(local, tree) && c < |tree| && tree[c] >= 0
  {
    local[tree[c] as nat]
  }

  /** The node table with the links found when the loop starts. */
  datatype Links = Links(local: map<nat, PsiNode>, children: map<nat, seq<PsiNode>>, parents: map<nat, PsiNode?>)

  /** Child lists once all parents but those of `todo` have been handled. */
  ghost predicate ChildrenBut(ls: Links, tree: seq<int>, todo: set<nat>)
    requires Covers(ls.local, tree)
    reads ls.local.Values
  {
    ls.children.Keys == ls.local.Keys && forall id: nat {:trigger ls.local[id]} :: id in ls.local ==>
      ls.local[id].children
      == if TS.Kids(tree, id) != [] && id !in todo then KidNodes(ls.local, tree, id) else ls.children[id]
  }

  /** The same for parent links. */
  ghost predicate ParentsBut(ls: Links, tree: seq<int>, todo: set<nat>)
    requires Covers(ls.local, tree)
    reads ls.local.Values
  {
    ls.parents.Keys == ls.local.Keys && forall c: nat {:trigger ls.local[c]} :: c in ls.local ==>
      ls.local[c].parent
      == if tree[c] >= 0 && tree[c] !in todo then ParentNode(ls.local, tree, c) else ls.parents[c]
  }

  /** The handling of one parent p while `todo` is still to be done. */
  datatype LinkStep = LinkStep(ls: Links, tree: seq<int>, todo: set<nat>, p: nat)

  twostate lemma ChildrenStep(st: LinkStep)
    requires Covers(st.ls.local, st.tree)
    requires old(ChildrenBut(st.ls, st.tree, st.todo))
    requires st.p in st.ls.local && TS.Kids(st.tree, st.p) != []
    requires st.ls.local[st.p].children == KidNodes(st.ls.local, st.tree, st.p)
    requires forall id :: id in st.ls.local && id != st.p ==> st.ls.local[id].children == old(st.ls.local[id].children)
    ensures ChildrenBut(st.ls, st.tree, st.todo - {st.p})
  {
    hide KidNodes, TS.Kids;
  }

  twostate lemma ParentsStep(st: LinkStep)
    requires Covers(st.ls.local, st.tree)
    requires old(ParentsBut(st.ls, st.tree, st.todo))
    requires st.p in st.ls.local
    requires forall c :: c in st.ls.local ==>
      st.ls.local[c].parent == if st.tree[c] == st.p then st.ls.local[st.p] else old(st.ls.local[c].parent)
    ensures ParentsBut(st.ls, st.tree, st.todo - {st.p})
  {
  }

  method LinkOne(local: map<nat, PsiNode>, p: nat, ids: seq<nat>, ghost tree: seq<int>, ghost todo: set<nat>, ghost ls: Links)
    requires ls.local == local && OneEach(local) && Covers(local, tree)
    requires ChildrenBut(ls, tree, todo) && ParentsBut(ls, tree, todo)
    requires p in local && ids == TS.Kids(tree, p) && ids != []
    modifies local.Values`children, local.Values`parent
    ensures ChildrenBut(ls, tree, todo - {p}) && ParentsBut(ls, tree, todo - {p})
  {
    forall c: nat | c in local ensures c in ids <==> tree[c] == p { }
    assert NodesAt(local, ids) == KidNodes(local, tree, p);
    hide TS.KidIds, TS.Kids, NodesAt, KidNodes, ParentNode, OneEach, ChildrenBut, ParentsBut;
    LinkParent(local, p, ids);
    ghost var st := LinkStep(ls, tree, todo, p);
    ChildrenStep(st);
    ParentsStep(st);
  }

  /** Second loop of the exact build: the parents of the table, in any order. */
  method LinkNodes(local: map<nat, PsiNode>, kidsOf: map<nat, seq<nat>>, ghost tree: seq<int>, ghost ls: Links)
    requires ls.local == local && OneEach(local) && Covers(local, tree) && KidTable(tree, |tree|, kidsOf)
    requires ChildrenBut(ls, tree, kidsOf.Keys) && ParentsBut(ls, tree, kidsOf.Keys)
    modifies local.Values`children, local.Values`parent
    ensures ChildrenBut(ls, tree, {}) && ParentsBut(ls, tree, {})
  {
    hide ChildrenBut, ParentsBut, Covers, OneEach, TS.Kids, TS.KidIds, KidTable;
    var todo := kidsOf.Keys;
    while todo != {}
      invariant todo <= kidsOf.Keys && ChildrenBut(ls, tree, todo) && ParentsBut(ls, tree, todo)
    {
      var p :| p in todo;
      KidsOfParent(tree, kidsOf, local, p);
      LinkOne(local, p, kidsOf[p], tree, todo, ls);
      todo := todo - {p};
    }
  }

  lemma KidsOfParent(tree: seq<int>, kidsOf: map<nat, seq<nat>>, local: map<nat, PsiNode>, p: nat)
    requires KidTable(tree, |tree|, kidsOf) && p in kidsOf && Covers(local, tree)
    ensures p in local && kidsOf[p] == TS.Kids(tree, p) && TS.Kids(tree, p) != []
  {
    assert tree[TS.Kids(tree, p)[0]] == p;
  }
}
