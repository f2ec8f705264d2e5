/** Nodes of the Psi merge tree, and the ghost shapes that describe the object graph. */
module PsiNodes {

  class PsiNode {
    const index: nat
    var text: string
    var children: seq<PsiNode>
    var parent: PsiNode?

    constructor (index: nat, text: string, children: seq<PsiNode>)
      ensures this.index == index && this.text == text && this.children == children && parent == null
    {
      this.index := index;
      this.text := text;
      this.children := children;
      this.parent := null;
    }
  }

  /** A finite tree of nodes; `InHeap` says that the heap has this shape. */
  datatype Shape = Shape(node: PsiNode, kids: seq<Shape>)

  ghost function Heads(ss: seq<Shape>): (hs: seq<PsiNode>)
    ensures |hs| == |ss| && forall i :: 0 <= i < |ss| ==> hs[i] == ss[i].node
  {
    seq(|ss|, i requires 0 <= i < |ss| => ss[i].node)
  }

  ghost function Nodes(s: Shape): (ns: set<PsiNode>)
    ensures s.node in ns
  {
    {s.node} + NodesOf(s.kids)
  }

  ghost function NodesOf(ss: seq<Shape>): (ns: set<PsiNode>)
    ensures forall i :: 0 <= i < |ss| ==> ss[i].node in ns
  {
    if ss == [] then {} else Nodes(ss[0]) + NodesOf(ss[1..])
  }

  /** Leaves from left to right. */
  ghost function Leaves(s: Shape): seq<PsiNode> {
    if s.kids == [] then [s.node] else LeavesOf(s.kids)
  }

  ghost function LeavesOf(ss: seq<Shape>): seq<PsiNode> {
    if ss == [] then [] else Leaves(ss[0]) + LeavesOf(ss[1..])
  }

  /** No node occurs twice. */
  ghost predicate Proper(s: Shape) {
    s.node !in NodesOf(s.kids) && ProperOf(s.kids)
  }

  ghost predicate ProperOf(ss: seq<Shape>) {
    ss == [] || (Proper(ss[0]) && Nodes(ss[0]) !! NodesOf(ss[1..]) && ProperOf(ss[1..]))
  }

  /** Every node is a leaf or has at least two children. */
  ghost predicate Bushy(s: Shape) {
    |s.kids| != 1 && BushyOf(s.kids)
  }

  ghost predicate BushyOf(ss: seq<Shape>) {
    ss == [] || (Bushy(ss[0]) && BushyOf(ss[1..]))
  }

  /** Child and parent links in the heap are those of the shape. */
  ghost predicate InHeap(s: Shape)
    reads Nodes(s)
  {
    && s.node.children == Heads(s.kids)
    && (forall i :: 0 <= i < |s.kids| ==> s.kids[i].node.parent == s.node)
    && AllInHeap(s.kids)
  }

  ghost predicate AllInHeap(ss: seq<Shape>)
    reads NodesOf(ss)
  {
    ss == [] || (InHeap(ss[0]) && AllInHeap(ss[1..]))
  }

  ghost function InternalCount(s: Shape): nat {
    if s.kids == [] then 0 else 1 + InternalCountOf(s.kids)
  }

  ghost function InternalCountOf(ss: seq<Shape>): nat {
    if ss == [] then 0 else InternalCount(ss[0]) + InternalCountOf(ss[1..])
  }

  // ------------------------------------------------- lists of shapes

  lemma {:induction false} LeavesAreNodes(s: Shape)
    ensures forall w :: w in Leaves(s) ==> w in Nodes(s)
    decreases s, 1
  {
    if s.kids != [] {
      LeavesOfAreNodes(s.kids);
    }
  }

  lemma {:induction false} LeavesOfAreNodes(ss: seq<Shape>)
    ensures forall w :: w in LeavesOf(ss) ==> w in NodesOf(ss)
    decreases ss, 0
  {
    if ss != [] {
      LeavesAreNodes(ss[0]);
      LeavesOfAreNodes(ss[1..]);
    }
  }

  lemma {:induction false} NodesOfAppend(a: seq<Shape>, b: seq<Shape>)
    ensures NodesOf(a + b) == NodesOf(a) + NodesOf(b)
    decreases |a|
  {
    if a == [] {
      assert a + b == b;
    } else {
      assert (a + b)[1..] == a[1..] + b;
      NodesOfAppend(a[1..], b);
    }
  }

  lemma {:induction false} LeavesOfAppend(a: seq<Shape>, b: seq<Shape>)
    ensures LeavesOf(a + b) == LeavesOf(a) + LeavesOf(b)
    decreases |a|
  {
    if a == [] {
      assert a + b == b;
    } else {
      assert (a + b)[1..] == a[1..] + b;
      LeavesOfAppend(a[1..], b);
    }
  }

  lemma {:induction false} ProperOfAppend(a: seq<Shape>, b: seq<Shape>)
    ensures ProperOf(a + b) <==> ProperOf(a) && ProperOf(b) && NodesOf(a) !! NodesOf(b)
    decreases |a|
  {
    if a == [] {
      assert a + b == b;
    } else {
      assert (a + b)[1..] == a[1..] + b;
      ProperOfAppend(a[1..], b);
      NodesOfAppend(a[1..], b);
    }
  }

  lemma {:induction false} BushyOfAppend(a: seq<Shape>, b: seq<Shape>)
    ensures BushyOf(a + b) <==> BushyOf(a) && BushyOf(b)
    decreases |a|
  {
    if a == [] {
      assert a + b == b;
    } else {
      assert (a + b)[1..] == a[1..] + b;
      BushyOfAppend(a[1..], b);
    }
  }

  lemma {:induction false} AllInHeapAppend(a: seq<Shape>, b: seq<Shape>)
    ensures AllInHeap(a + b) <==> AllInHeap(a) && AllInHeap(b)
    decreases |a|
  {
    if a == [] {
      assert a + b == b;
    } else {
      assert (a + b)[1..] == a[1..] + b;
      AllInHeapAppend(a[1..], b);
    }
  }

  /** A list of one tree. */
  lemma Single(s: Shape)
    ensures NodesOf([s]) == Nodes(s) && LeavesOf([s]) == Leaves(s)
    ensures ProperOf([s]) <==> Proper(s)
    ensures BushyOf([s]) <==> Bushy(s)
    ensures AllInHeap([s]) <==> InHeap(s)
  {
    var one: seq<Shape> := [s];
    assert one[1..] == [];
    assert Leaves(s) + [] == Leaves(s);
  }

  lemma {:induction false} NodesOfMember(ss: seq<Shape>, i: nat)
    requires i < |ss|
    ensures Nodes(ss[i]) <= NodesOf(ss)
    decreases |ss|
  {
    if i > 0 {
      NodesOfMember(ss[1..], i - 1);
    }
  }

  lemma {:induction false} InNodesOf(ss: seq<Shape>, w: PsiNode) returns (i: nat)
    requires w in NodesOf(ss)
    ensures i < |ss| && w in Nodes(ss[i])
    decreases |ss|
  {
    if w in Nodes(ss[0]) {
      i := 0;
    } else {
      var j := InNodesOf(ss[1..], w);
      i := j + 1;
    }
  }

  /** Element-wise view of `ProperOf`. */
  lemma {:induction false} ProperOfIntro(ss: seq<Shape>)
    requires forall i :: 0 <= i < |ss| ==> Proper(ss[i])
    requires forall i, j :: 0 <= i < j < |ss| ==> Nodes(ss[i]) !! Nodes(ss[j])
    ensures ProperOf(ss)
    decreases |ss|
  {
    if ss != [] {
      ProperOfIntro(ss[1..]);
      forall w | w in NodesOf(ss[1..]) ensures w !in Nodes(ss[0]) {
        var i := InNodesOf(ss[1..], w);
        assert Nodes(ss[0]) !! Nodes(ss[i + 1]);
      }
    }
  }

  lemma {:induction false} ProperOfElim(ss: seq<Shape>, i: nat, j: nat)
    requires ProperOf(ss) && i < |ss|
    ensures Proper(ss[i])
    ensures i < j < |ss| ==> Nodes(ss[i]) !! Nodes(ss[j])
    decreases |ss|
  {
    if i > 0 {
      ProperOfElim(ss[1..], i - 1, if j > 0 then j - 1 else 0);
    } else if 0 < j < |ss| {
      NodesOfMember(ss[1..], j - 1);
    }
  }

  lemma {:induction false} BushyOfIntro(ss: seq<Shape>)
    requires forall i :: 0 <= i < |ss| ==> Bushy(ss[i])
    ensures BushyOf(ss)
    decreases |ss|
  {
    if ss != [] {
      BushyOfIntro(ss[1..]);
    }
  }

  lemma {:induction false} BushyOfElim(ss: seq<Shape>, i: nat)
    requires BushyOf(ss) && i < |ss|
    ensures Bushy(ss[i])
    decreases |ss|
  {
    if i > 0 {
      BushyOfElim(ss[1..], i - 1);
    }
  }

  lemma {:induction false} AllInHeapIntro(ss: seq<Shape>)
    requires forall i :: 0 <= i < |ss| ==> InHeap(ss[i])
    ensures AllInHeap(ss)
    decreases |ss|
  {
    if ss != [] {
      AllInHeapIntro(ss[1..]);
    }
  }

  lemma {:induction false} AllInHeapElim(ss: seq<Shape>, i: nat)
    requires AllInHeap(ss) && i < |ss|
    ensures InHeap(ss[i])
    decreases |ss|
  {
    if i > 0 {
      AllInHeapElim(ss[1..], i - 1);
    }
  }

  lemma {:induction false} NodesAllocated(s: Shape)
    ensures forall w :: w in Nodes(s) ==> allocated(w)
    decreases s, 1
  {
    NodesOfAllocated(s.kids);
  }

  lemma {:induction false} NodesOfAllocated(ss: seq<Shape>)
    ensures forall w :: w in NodesOf(ss) ==> allocated(w)
    decreases ss, 0
  {
    if ss != [] {
      NodesAllocated(ss[0]);
      NodesOfAllocated(ss[1..]);
    }
  }

  /** Links survive a step that writes neither children nor inner parents of the tree. */
  twostate lemma {:induction false} InHeapFrame(s: Shape)
    requires Proper(s)
    requires old(InHeap(s))
    requires forall w :: w in Nodes(s) ==> old(allocated(w)) && w.children == old(w.children)
    requires forall w :: w in NodesOf(s.kids) ==> old(allocated(w)) && w.parent == old(w.parent)
    ensures InHeap(s)
    decreases s, 1
  {
    AllInHeapFrame(s.kids);
  }

  twostate lemma {:induction false} AllInHeapFrame(ss: seq<Shape>)
    requires ProperOf(ss)
    requires old(AllInHeap(ss))
    requires forall w :: w in NodesOf(ss) ==> old(allocated(w)) && w.children == old(w.children) && w.parent == old(w.parent)
    ensures AllInHeap(ss)
    decreases ss, 0
  {
    if ss != [] {
      InHeapFrame(ss[0]);
      AllInHeapFrame(ss[1..]);
    }
  }

  // ------------------------------------------------- counting

  /** A bushy tree has fewer internal nodes than leaves. */
  lemma {:induction false} FewInternals(s: Shape)
    requires Bushy(s)
    ensures InternalCount(s) + 1 <= |Leaves(s)|
    decreases s, 1
  {
    if s.kids != [] {
      FewInternalsOf(s.kids);
    }
  }

  lemma {:induction false} FewInternalsOf(ss: seq<Shape>)
    requires BushyOf(ss)
    ensures InternalCountOf(ss) + |ss| <= |LeavesOf(ss)|
    decreases ss, 0
  {
    if ss != [] {
      FewInternals(ss[0]);
      FewInternalsOf(ss[1..]);
    }
  }
}
