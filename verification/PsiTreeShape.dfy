/** From a parent array to the tree of nodes it describes. */
module PsiTreeShape {
  import opened PsiNodes

  // ------------------------------------------------- parent arrays

  /** The entries below m whose parent is `id`, ascending. */
  ghost function KidIds(tree: seq<int>, id: nat, m: nat): (kids: seq<nat>)
    requires m <= |tree|
    ensures forall i :: 0 <= i < |kids| ==> kids[i] < m && tree[kids[i]] == id
    ensures forall i, j :: 0 <= i < j < |kids| ==> kids[i] < kids[j]
    ensures forall c :: 0 <= c < m && tree[c] == id ==> c in kids
  {
    if m == 0 then []
    else KidIds(tree, id, m - 1) + if tree[m - 1] == id then [m - 1] else []
  }

  ghost function Kids(tree: seq<int>, id: nat): seq<nat> {
    KidIds(tree, id, |tree|)
  }

  /** The entry k steps above x, -1 if there is none. */
  ghost function Up(tree: seq<int>, x: nat, k: nat): (a: int)
    requires x < |tree|
  {
    if k == 0 then x else
    var b := Up(tree, x, k - 1);
    if 0 <= b < |tree| then tree[b] else -1
  }

  /** The entries k levels below `id`, from left to right. */
  ghost function Below(tree: seq<int>, id: nat, k: nat): seq<nat>
    decreases k, 0
  {
    if k == 0 then [id] else BelowAll(tree, Kids(tree, id), k - 1)
  }

  ghost function BelowAll(tree: seq<int>, ids: seq<nat>, k: nat): seq<nat>
    decreases k, 1 + |ids|
  {
    if ids == [] then [] else Below(tree, ids[0], k) + BelowAll(tree, ids[1..], k)
  }

  lemma {:induction false} BelowIsUp(tree: seq<int>, id: nat, k: nat, x: nat)
    requires id < |tree|
    ensures x in Below(tree, id, k) <==> x < |tree| && Up(tree, x, k) == id
    decreases k, 0
  {
    if k > 0 {
      BelowAllIsUp(tree, Kids(tree, id), k - 1, x);
    }
  }

  lemma {:induction false} BelowAllIsUp(tree: seq<int>, ids: seq<nat>, k: nat, x: nat)
    requires forall i :: 0 <= i < |ids| ==> ids[i] < |tree|
    ensures x in BelowAll(tree, ids, k) <==> x < |tree| && exists i :: 0 <= i < |ids| && Up(tree, x, k) == ids[i]
    decreases k, 1 + |ids|
  {
    if ids != [] {
      BelowIsUp(tree, ids[0], k, x);
      BelowAllIsUp(tree, ids[1..], k, x);
    }
  }

  ghost predicate NoRepeat(s: seq<nat>) {
    forall i, j :: 0 <= i < j < |s| ==> s[i] != s[j]
  }

  lemma {:induction false} BelowNoRepeat(tree: seq<int>, id: nat, k: nat)
    requires id < |tree|
    ensures NoRepeat(Below(tree, id, k))
    decreases k, 0
  {
    if k > 0 {
      BelowAllNoRepeat(tree, Kids(tree, id), k - 1);
    }
  }

  lemma {:induction false} BelowAllNoRepeat(tree: seq<int>, ids: seq<nat>, k: nat)
    requires NoRepeat(ids) && forall i :: 0 <= i < |ids| ==> ids[i] < |tree|
    ensures NoRepeat(BelowAll(tree, ids, k))
    decreases k, 1 + |ids|
  {
    if ids != [] {
      var a, b := Below(tree, ids[0], k), BelowAll(tree, ids[1..], k);
      BelowNoRepeat(tree, ids[0], k);
      BelowAllNoRepeat(tree, ids[1..], k);
      forall x | x in a && x in b ensures false {
        BelowIsUp(tree, ids[0], k, x);
        BelowAllIsUp(tree, ids[1..], k, x);
      }
      forall i, j | 0 <= i < j < |a + b| ensures (a + b)[i] != (a + b)[j] {
        if i < |a| <= j {
          assert a[i] in a && b[j - |a|] in b;
        }
      }
    }
  }

  // ------------------------------------------------- levelled arrays

  /** The array is a forest over n leaves in which every edge climbs exactly one level and
      every entry above the leaves has at least two children. */
  ghost predicate Levelled(tree: seq<int>, n: nat, lev: seq<nat>) {
    && |lev| == |tree| && n <= |tree|
    && (forall id :: 0 <= id < |tree| ==> (lev[id] == 0 <==> id < n))
    && (forall c {:trigger tree[c]} :: 0 <= c < |tree| && tree[c] >= 0 ==> tree[c] < |tree| && lev[tree[c]] == lev[c] + 1)
    && (forall id {:trigger Kids(tree, id)} :: n <= id < |tree| ==> |Kids(tree, id)| >= 2)
  }

  lemma {:induction false} UpLevel(tree: seq<int>, n: nat, lev: seq<nat>, x: nat, k: nat)
    requires Levelled(tree, n, lev) && x < |tree| && Up(tree, x, k) >= 0
    ensures Up(tree, x, k) < |tree| && lev[Up(tree, x, k)] == lev[x] + k
    decreases k
  {
    if k > 0 {
      UpLevel(tree, n, lev, x, k - 1);
    }
  }

  // ------------------------------------------------- the tree of an entry

  /** Node tables cover the array: leaves carry the given shapes, other entries own one node. */
  ghost predicate Tabled(tree: seq<int>, local: map<nat, PsiNode>, shapes: seq<Shape>) {
    && |shapes| <= |tree|
    && (forall id :: 0 <= id < |tree| ==> id in local)
    && (forall id :: 0 <= id < |shapes| ==> local[id] == shapes[id].node)
    && (forall d, e :: 0 <= d < e < |tree| ==> Owned(local, shapes, d) !! Owned(local, shapes, e))
  }

  ghost function Owned(local: map<nat, PsiNode>, shapes: seq<Shape>, d: nat): set<PsiNode> {
    if d < |shapes| then Nodes(shapes[d]) else if d in local then {local[d]} else {}
  }

  /** The shape below an entry of level k. */
  ghost function ShapeAt(tree: seq<int>, local: map<nat, PsiNode>, shapes: seq<Shape>, id: nat, k: nat): (s: Shape)
    requires Tabled(tree, local, shapes) && id < |tree|
    ensures s.node == local[id]
    decreases k, 0
  {
    if id < |shapes| then shapes[id]
    else if k == 0 then Shape(local[id], [])
    else Shape(local[id], ShapesAt(tree, local, shapes, Kids(tree, id), k - 1))
  }

  ghost function ShapesAt(tree: seq<int>, local: map<nat, PsiNode>, shapes: seq<Shape>, ids: seq<nat>, k: nat): (ss: seq<Shape>)
    requires Tabled(tree, local, shapes) && forall i :: 0 <= i < |ids| ==> ids[i] < |tree|
    ensures |ss| == |ids| && forall i :: 0 <= i < |ids| ==> ss[i] == ShapeAt(tree, local, shapes, ids[i], k)
    decreases k, 1 + |ids|
  {
    if ids == [] then []
    else [ShapeAt(tree, local, shapes, ids[0], k)] + ShapesAt(tree, local, shapes, ids[1..], k)
  }

  /** The given shapes at the listed positions. */
  ghost function Pick(shapes: seq<Shape>, ps: seq<nat>): (ss: seq<Shape>)
    requires forall i :: 0 <= i < |ps| ==> ps[i] < |shapes|
    ensures |ss| == |ps| && forall i :: 0 <= i < |ps| ==> ss[i] == shapes[ps[i]]
  {
    seq(|ps|, i requires 0 <= i < |ps| => shapes[ps[i]])
  }

  lemma BelowAreLeaves(tree: seq<int>, n: nat, lev: seq<nat>, id: nat, k: nat)
    requires Levelled(tree, n, lev) && id < |tree| && lev[id] == k
    ensures forall i :: 0 <= i < |Below(tree, id, k)| ==> Below(tree, id, k)[i] < n
  {
    var b := Below(tree, id, k);
    forall i | 0 <= i < |b| ensures b[i] < n {
      BelowIsUp(tree, id, k, b[i]);
      UpLevel(tree, n, lev, b[i], k);
    }
  }

  /** Leaves of the tree at `id`: those of the shapes below it, in order. */
  lemma {:induction false} ShapeLeaves(tree: seq<int>, lev: seq<nat>, local: map<nat, PsiNode>, shapes: seq<Shape>, id: nat, k: nat)
    requires Tabled(tree, local, shapes) && Levelled(tree, |shapes|, lev) && id < |tree| && lev[id] == k
    ensures forall i :: 0 <= i < |Below(tree, id, k)| ==> Below(tree, id, k)[i] < |shapes|
    ensures Leaves(ShapeAt(tree, local, shapes, id, k)) == LeavesOf(Pick(shapes, Below(tree, id, k)))
    decreases k, 0
  {
    BelowAreLeaves(tree, |shapes|, lev, id, k);
    if k == 0 {
      assert Pick(shapes, Below(tree, id, k)) == [shapes[id]];
      assert LeavesOf([shapes[id]]) == Leaves(shapes[id]) + LeavesOf([]);
    } else {
      ShapesLeaves(tree, lev, local, shapes, Kids(tree, id), k - 1);
    }
  }

  lemma {:induction false} ShapesLeaves(tree: seq<int>, lev: seq<nat>, local: map<nat, PsiNode>, shapes: seq<Shape>, ids: seq<nat>, k: nat)
    requires Tabled(tree, local, shapes) && Levelled(tree, |shapes|, lev)
    requires forall i :: 0 <= i < |ids| ==> ids[i] < |tree| && lev[ids[i]] == k
    ensures forall i :: 0 <= i < |BelowAll(tree, ids, k)| ==> BelowAll(tree, ids, k)[i] < |shapes|
    ensures LeavesOf(ShapesAt(tree, local, shapes, ids, k)) == LeavesOf(Pick(shapes, BelowAll(tree, ids, k)))
    decreases k, 1 + |ids|
  {
    if ids != [] {
      var a, b := Below(tree, ids[0], k), BelowAll(tree, ids[1..], k);
      ShapeLeaves(tree, lev, local, shapes, ids[0], k);
      ShapesLeaves(tree, lev, local, shapes, ids[1..], k);
      assert Pick(shapes, a + b) == Pick(shapes, a) + Pick(shapes, b);
      LeavesOfAppend(Pick(shapes, a), Pick(shapes, b));
      var ss := ShapesAt(tree, local, shapes, ids, k);
      assert ss[1..] == ShapesAt(tree, local, shapes, ids[1..], k);
    }
  }

  /** Every node of the tree at `id` is owned by one entry at or below `id`. */
  lemma {:induction false} NodeOwner(tree: seq<int>, lev: seq<nat>, local: map<nat, PsiNode>, shapes: seq<Shape>, id: nat, k: nat, w: PsiNode)
    returns (d: nat, j: nat)
    requires Tabled(tree, local, shapes) && Levelled(tree, |shapes|, lev) && id < |tree| && lev[id] == k
    requires w in Nodes(ShapeAt(tree, local, shapes, id, k))
    ensures d < |tree| && w in Owned(local, shapes, d) && Up(tree, d, j) == id
    decreases k
  {
    if k == 0 || w == local[id] {
      return id, 0;
    }
    var kids := Kids(tree, id);
    var i := InNodesOf(ShapesAt(tree, local, shapes, kids, k - 1), w);
    d, j := NodeOwner(tree, lev, local, shapes, kids[i], k - 1, w);
    j := j + 1;
  }

  lemma SameOwner(tree: seq<int>, local: map<nat, PsiNode>, shapes: seq<Shape>, d: nat, e: nat, w: PsiNode)
    requires Tabled(tree, local, shapes) && d < |tree| && e < |tree|
    requires w in Owned(local, shapes, d) && w in Owned(local, shapes, e)
    ensures d == e
  {
    assert d < e ==> Owned(local, shapes, d) !! Owned(local, shapes, e);
    assert e < d ==> Owned(local, shapes, e) !! Owned(local, shapes, d);
  }

  /** Trees at different entries of one level share no node. */
  lemma ShapesApart(tree: seq<int>, lev: seq<nat>, local: map<nat, PsiNode>, shapes: seq<Shape>, a: nat, b: nat, k: nat)
    requires Tabled(tree, local, shapes) && Levelled(tree, |shapes|, lev)
    requires a < |tree| && b < |tree| && lev[a] == k && lev[b] == k && a != b
    ensures Nodes(ShapeAt(tree, local, shapes, a, k)) !! Nodes(ShapeAt(tree, local, shapes, b, k))
  {
    hide Nodes, NodesOf, ShapeAt, Owned, Kids, KidIds, Proper, Tabled, Levelled;
    forall w | w in Nodes(ShapeAt(tree, local, shapes, a, k)) && w in Nodes(ShapeAt(tree, local, shapes, b, k))
      ensures false
    {
      var d, i := NodeOwner(tree, lev, local, shapes, a, k, w);
      var e, j := NodeOwner(tree, lev, local, shapes, b, k, w);
      SameOwner(tree, local, shapes, d, e, w);
      UpLevel(tree, |shapes|, lev, d, i);
      UpLevel(tree, |shapes|, lev, d, j);
    }
  }

  /** The node of an entry does not occur among its descendants. */
  lemma RootApart(tree: seq<int>, lev: seq<nat>, local: map<nat, PsiNode>, shapes: seq<Shape>, id: nat, k: nat)
    requires Tabled(tree, local, shapes) && Levelled(tree, |shapes|, lev) && id < |tree| && lev[id] == k > 0
    ensures local[id] !in NodesOf(ShapesAt(tree, local, shapes, Kids(tree, id), k - 1))
  {
    var kids := Kids(tree, id);
    if local[id] in NodesOf(ShapesAt(tree, local, shapes, kids, k - 1)) {
      var i := InNodesOf(ShapesAt(tree, local, shapes, kids, k - 1), local[id]);
      var d, a := NodeOwner(tree, lev, local, shapes, kids[i], k - 1, local[id]);
      UpLevel(tree, |shapes|, lev, d, a);
      SameOwner(tree, local, shapes, d, id, local[id]);
    }
  }

  lemma KidsBelow(tree: seq<int>, lev: seq<nat>, local: map<nat, PsiNode>, shapes: seq<Shape>, id: nat, k: nat)
    requires Tabled(tree, local, shapes) && Levelled(tree, |shapes|, lev) && id < |tree| && lev[id] == k > 0
    ensures forall i :: 0 <= i < |Kids(tree, id)| ==> Kids(tree, id)[i] < |tree| && lev[Kids(tree, id)[i]] == k - 1
    ensures forall i, j :: 0 <= i < j < |Kids(tree, id)| ==> Kids(tree, id)[i] != Kids(tree, id)[j]
    ensures ShapeAt(tree, local, shapes, id, k)
            == Shape(local[id], ShapesAt(tree, local, shapes, Kids(tree, id), k - 1))
  {
    forall i | 0 <= i < |Kids(tree, id)| ensures lev[Kids(tree, id)[i]] == k - 1 {
      assert tree[Kids(tree, id)[i]] == id;
    }
  }

  ghost predicate AllProper(ss: seq<Shape>) {
    forall i :: 0 <= i < |ss| ==> Proper(ss[i])
  }

  /** Proper trees at the children make a proper tree at their parent. */
  lemma ShapeProperStep(tree: seq<int>, lev: seq<nat>, local: map<nat, PsiNode>, shapes: seq<Shape>, id: nat, k: nat)
    requires Tabled(tree, local, shapes) && Levelled(tree, |shapes|, lev) && id < |tree| && lev[id] == k > 0
    requires AllProper(ShapesAt(tree, local, shapes, Kids(tree, id), k - 1))
    ensures Proper(ShapeAt(tree, local, shapes, id, k))
  {
    hide Nodes, NodesOf, ShapeAt, ShapesAt, Owned, Kids, KidIds, Tabled, ProperOf;
    var kids := Kids(tree, id);
    KidsBelow(tree, lev, local, shapes, id, k);
    RootApart(tree, lev, local, shapes, id, k);
    var ss := ShapesAt(tree, local, shapes, kids, k - 1);
    forall i, j | 0 <= i < j < |ss| ensures Nodes(ss[i]) !! Nodes(ss[j]) {
      ShapesApart(tree, lev, local, shapes, kids[i], kids[j], k - 1);
    }
    ProperOfIntro(ss);
  }

  lemma {:induction false} ShapeProper(tree: seq<int>, lev: seq<nat>, local: map<nat, PsiNode>, shapes: seq<Shape>, id: nat, k: nat)
    requires Tabled(tree, local, shapes) && Levelled(tree, |shapes|, lev) && id < |tree| && lev[id] == k
    requires forall i :: 0 <= i < |shapes| ==> Proper(shapes[i])
    ensures Proper(ShapeAt(tree, local, shapes, id, k))
    decreases k
  {
    if k > 0 {
      KidsBelow(tree, lev, local, shapes, id, k);
      hide Kids, Tabled, Levelled, ShapeAt, ShapesAt, Proper;
      var kids := Kids(tree, id);
      var ss := ShapesAt(tree, local, shapes, kids, k - 1);
      forall i | 0 <= i < |ss| ensures Proper(ss[i]) {
        ShapeProper(tree, lev, local, shapes, kids[i], k - 1);
        assert ss[i] == ShapeAt(tree, local, shapes, kids[i], k - 1);
      }
      assert AllProper(ss);
      ShapeProperStep(tree, lev, local, shapes, id, k);
    } else {
      LeafShape(tree, lev, local, shapes, id);
    }
  }

  lemma TwoKidsAbove(tree: seq<int>, n: nat, lev: seq<nat>, id: nat)
    requires Levelled(tree, n, lev) && id < |tree| && lev[id] > 0
    ensures |Kids(tree, id)| >= 2
  {
    hide Kids;
  }

  lemma {:induction false} ShapeBushy(tree: seq<int>, lev: seq<nat>, local: map<nat, PsiNode>, shapes: seq<Shape>, id: nat, k: nat)
    requires Tabled(tree, local, shapes) && Levelled(tree, |shapes|, lev) && id < |tree| && lev[id] == k
    requires forall i :: 0 <= i < |shapes| ==> Bushy(shapes[i])
    ensures Bushy(ShapeAt(tree, local, shapes, id, k))
    decreases k
  {
    if k > 0 {
      KidsBelow(tree, lev, local, shapes, id, k);
      TwoKidsAbove(tree, |shapes|, lev, id);
      hide Kids, Tabled, Levelled, ShapeAt, ShapesAt, BushyOf;
      var kids := Kids(tree, id);
      var ss := ShapesAt(tree, local, shapes, kids, k - 1);
      forall i | 0 <= i < |ss| ensures Bushy(ss[i]) {
        ShapeBushy(tree, lev, local, shapes, kids[i], k - 1);
      }
      BushyOfIntro(ss);
    } else {
      LeafShape(tree, lev, local, shapes, id);
    }
  }

  lemma LeafShape(tree: seq<int>, lev: seq<nat>, local: map<nat, PsiNode>, shapes: seq<Shape>, id: nat)
    requires Tabled(tree, local, shapes) && Levelled(tree, |shapes|, lev) && id < |tree| && lev[id] == 0
    ensures id < |shapes| && ShapeAt(tree, local, shapes, id, 0) == shapes[id]
  {
    hide Kids, ShapesAt, Tabled;
  }

  /** The heap links of the new nodes are those of the array. */
  ghost predicate Wired(tree: seq<int>, local: map<nat, PsiNode>, shapes: seq<Shape>)
    requires Tabled(tree, local, shapes)
    reads local.Values, NodesOf(shapes)
  {
    && AllInHeap(shapes)
    && (forall id {:trigger Kids(tree, id)} :: |shapes| <= id < |tree| ==>
         |local[id].children| == |Kids(tree, id)|
         && forall i :: 0 <= i < |Kids(tree, id)| ==> local[id].children[i] == local[Kids(tree, id)[i]])
    && (forall c {:trigger tree[c]} :: 0 <= c < |tree| && 0 <= tree[c] < |tree| ==> local[c].parent == local[tree[c] as nat])
  }

  lemma KidsWired(tree: seq<int>, lev: seq<nat>, local: map<nat, PsiNode>, shapes: seq<Shape>, id: nat)
    requires Tabled(tree, local, shapes) && Levelled(tree, |shapes|, lev) && id < |tree| && lev[id] > 0
    requires Wired(tree, local, shapes)
    ensures |local[id].children| == |Kids(tree, id)|
    ensures forall i :: 0 <= i < |Kids(tree, id)| ==>
      local[id].children[i] == local[Kids(tree, id)[i]] && local[Kids(tree, id)[i]].parent == local[id]
  {
    forall i | 0 <= i < |Kids(tree, id)| ensures local[Kids(tree, id)[i]].parent == local[id] {
      assert tree[Kids(tree, id)[i]] == id;
    }
  }

  /** The children of a node are the roots of the shapes below it, and point back at it. */
  ghost predicate Tied(node: PsiNode, ss: seq<Shape>)
    reads node`children, (set s | s in ss :: s.node)`parent
  {
    |node.children| == |ss| && forall i :: 0 <= i < |ss| ==> node.children[i] == ss[i].node && ss[i].node.parent == node
  }

  lemma InHeapIntro(node: PsiNode, ss: seq<Shape>)
    requires Tied(node, ss) && forall i :: 0 <= i < |ss| ==> InHeap(ss[i])
    ensures InHeap(Shape(node, ss))
  {
    AllInHeapIntro(ss);
    assert node.children == Heads(ss);
  }

  lemma KidsTied(tree: seq<int>, lev: seq<nat>, local: map<nat, PsiNode>, shapes: seq<Shape>, id: nat, k: nat)
    requires Tabled(tree, local, shapes) && Levelled(tree, |shapes|, lev) && id < |tree| && lev[id] == k > 0
    requires Wired(tree, local, shapes)
    ensures Tied(local[id], ShapesAt(tree, local, shapes, Kids(tree, id), k - 1))
  {
    KidsWired(tree, lev, local, shapes, id);
    hide Kids, Tabled, Levelled, Wired, ShapeAt, ShapesAt;
  }

  lemma {:induction false} ShapeInHeap(tree: seq<int>, lev: seq<nat>, local: map<nat, PsiNode>, shapes: seq<Shape>, id: nat, k: nat)
    requires Tabled(tree, local, shapes) && Levelled(tree, |shapes|, lev) && id < |tree| && lev[id] == k
    requires Wired(tree, local, shapes)
    ensures InHeap(ShapeAt(tree, local, shapes, id, k))
    decreases k
  {
    if k == 0 {
      LeafShape(tree, lev, local, shapes, id);
      AllInHeapElim(shapes, id);
    } else {
      KidsBelow(tree, lev, local, shapes, id, k);
      KidsTied(tree, lev, local, shapes, id, k);
      hide Kids, Tabled, Levelled, Wired, ShapeAt, ShapesAt, InHeap, Tied;
      var kids := Kids(tree, id);
      var ss := ShapesAt(tree, local, shapes, kids, k - 1);
      forall i | 0 <= i < |ss| ensures InHeap(ss[i]) {
        ShapeInHeap(tree, lev, local, shapes, kids[i], k - 1);
      }
      InHeapIntro(local[id], ss);
    }
  }
}
