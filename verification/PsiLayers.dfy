/** `_psi_layers`: the internal nodes of a tree, layer by layer. */
module PsiLayers {
  import opened PsiNodes

  // ------------------------------------------------- heights

  ghost function Tall(s: Shape): nat {
    if s.kids == [] then 0 else TallestOf(s.kids) + 1
  }

  ghost function TallestOf(ss: seq<Shape>): nat {
    if ss == [] then 0 else
    var a, b := Tall(ss[0]), TallestOf(ss[1..]);
    if a >= b then a else b
  }

  /** Internal subtrees, children before parents. */
  ghost function Internals(s: Shape): seq<Shape> {
    if s.kids == [] then [] else InternalsOf(s.kids) + [s]
  }

  ghost function InternalsOf(ss: seq<Shape>): seq<Shape> {
    if ss == [] then [] else Internals(ss[0]) + InternalsOf(ss[1..])
  }

  /** Nodes of the listed subtrees whose height is h. */
  ghost function AtHeight(xs: seq<Shape>, h: nat): seq<PsiNode> {
    if xs == [] then [] else (if Tall(xs[0]) == h then [xs[0].node] else []) + AtHeight(xs[1..], h)
  }

  ghost function Layer(s: Shape, h: nat): seq<PsiNode> {
    AtHeight(Internals(s), h)
  }

  lemma {:induction false} AtHeightAppend(a: seq<Shape>, b: seq<Shape>, h: nat)
    ensures AtHeight(a + b, h) == AtHeight(a, h) + AtHeight(b, h)
    decreases |a|
  {
    if a == [] {
      assert a + b == b;
    } else {
      assert (a + b)[1..] == a[1..] + b;
      AtHeightAppend(a[1..], b, h);
    }
  }

  lemma {:induction false} InternalsCounted(s: Shape)
    ensures |Internals(s)| == InternalCount(s)
    decreases s, 1
  {
    if s.kids != [] {
      InternalsOfCounted(s.kids);
    }
  }

  lemma {:induction false} InternalsOfCounted(ss: seq<Shape>)
    ensures |InternalsOf(ss)| == InternalCountOf(ss)
    decreases ss, 0
  {
    if ss != [] {
      InternalsCounted(ss[0]);
      InternalsOfCounted(ss[1..]);
    }
  }

  lemma {:induction false} TallestIsMax(ss: seq<Shape>, i: nat)
    requires i < |ss|
    ensures Tall(ss[i]) <= TallestOf(ss)
    decreases |ss|
  {
    if i > 0 {
      TallestIsMax(ss[1..], i - 1);
    }
  }

  /** A leaf has height 0; any other node is one higher than its highest child. */
  lemma {:induction false} TallIs(s: Shape)
    ensures s.kids == [] <==> Tall(s) == 0
    ensures forall i :: 0 <= i < |s.kids| ==> Tall(s.kids[i]) < Tall(s)
    ensures s.kids != [] ==> exists i :: 0 <= i < |s.kids| && Tall(s.kids[i]) == Tall(s) - 1
  {
    forall i | 0 <= i < |s.kids| ensures Tall(s.kids[i]) < Tall(s) { TallestIsMax(s.kids, i); }
    if s.kids != [] {
      var i := TallestReached(s.kids);
    }
  }

  lemma {:induction false} TallestReached(ss: seq<Shape>) returns (i: nat)
    requires ss != []
    ensures i < |ss| && Tall(ss[i]) == TallestOf(ss)
    decreases |ss|
  {
    i := 0;
    if |ss| > 1 && Tall(ss[0]) < TallestOf(ss[1..]) {
      i := TallestReached(ss[1..]);
      i := i + 1;
    }
  }

  /** Bottom-up: an internal child of a layered subtree is layered itself, strictly lower. */
  lemma {:induction false} ChildrenLower(s: Shape, x: Shape, i: nat)
    requires x in Internals(s) && i < |x.kids|
    ensures Tall(x.kids[i]) < Tall(x)
    ensures x.kids[i].kids != [] ==> x.kids[i] in Internals(s)
    ensures x.kids[i].kids == [] ==> x.kids[i].node in Leaves(s)
    decreases s, 1
  {
    if x == s {
      TallestIsMax(s.kids, i);
      KidListed(s.kids, i);
    } else {
      ChildrenLowerOf(s.kids, x, i);
    }
  }

  lemma {:induction false} ChildrenLowerOf(ss: seq<Shape>, x: Shape, i: nat)
    requires x in InternalsOf(ss) && i < |x.kids|
    ensures Tall(x.kids[i]) < Tall(x)
    ensures x.kids[i].kids != [] ==> x.kids[i] in InternalsOf(ss)
    ensures x.kids[i].kids == [] ==> x.kids[i].node in LeavesOf(ss)
    decreases ss, 0
  {
    if x in Internals(ss[0]) {
      ChildrenLower(ss[0], x, i);
    } else {
      ChildrenLowerOf(ss[1..], x, i);
    }
  }

  lemma {:induction false} KidListed(ss: seq<Shape>, i: nat)
    requires i < |ss|
    ensures ss[i].kids != [] ==> ss[i] in InternalsOf(ss)
    ensures ss[i].kids == [] ==> ss[i].node in LeavesOf(ss)
    decreases |ss|
  {
    if i > 0 {
      KidListed(ss[1..], i - 1);
    }
  }

  /** Layers above the root are empty and the top layer is the root alone. */
  lemma {:induction false} TopLayer(s: Shape, h: nat)
    requires h >= Tall(s)
    ensures Layer(s, h) == if s.kids != [] && h == Tall(s) then [s.node] else []
    decreases s, 1
  {
    if s.kids != [] {
      NothingAbove(s.kids, h);
      AtHeightAppend(InternalsOf(s.kids), [s], h);
    }
  }

  lemma {:induction false} NothingAbove(ss: seq<Shape>, h: nat)
    requires h > TallestOf(ss)
    ensures AtHeight(InternalsOf(ss), h) == []
    decreases ss, 0
  {
    if ss != [] {
      TopLayer(ss[0], h);
      NothingAbove(ss[1..], h);
      AtHeightAppend(Internals(ss[0]), InternalsOf(ss[1..]), h);
    }
  }

  /** No layer up to the root's height is empty. */
  lemma {:induction false} LayersFilled(s: Shape, h: nat)
    requires 1 <= h <= Tall(s)
    ensures Layer(s, h) != []
    decreases s, 1
  {
    AtHeightAppend(InternalsOf(s.kids), [s], h);
    if h < Tall(s) {
      LayersFilledOf(s.kids, h);
    }
  }

  lemma {:induction false} LayersFilledOf(ss: seq<Shape>, h: nat)
    requires 1 <= h <= TallestOf(ss)
    ensures AtHeight(InternalsOf(ss), h) != []
    decreases ss, 0
  {
    AtHeightAppend(Internals(ss[0]), InternalsOf(ss[1..]), h);
    if h <= Tall(ss[0]) {
      LayersFilled(ss[0], h);
    } else {
      LayersFilledOf(ss[1..], h);
    }
  }

  // ------------------------------------------------- left to right

  /** Some entries of b, in their order. */
  ghost predicate Among(a: seq<PsiNode>, b: seq<PsiNode>) {
    a == [] || (b != [] && if a[0] == b[0] then Among(a[1..], b[1..]) else Among(a, b[1..]))
  }

  lemma {:induction false} AmongSame(a: seq<PsiNode>)
    ensures Among(a, a)
    decreases |a|
  {
    if a != [] {
      AmongSame(a[1..]);
    }
  }

  lemma {:induction false} AmongTail(a: seq<PsiNode>, b: seq<PsiNode>)
    requires a != [] && Among(a, b)
    ensures Among(a[1..], b)
    decreases |b|, 0
  {
    if a[0] == b[0] {
      AmongLater(a[1..], b[0], b[1..]);
      assert b == [b[0]] + b[1..];
    } else {
      AmongTail(a, b[1..]);
      AmongLater(a[1..], b[0], b[1..]);
      assert b == [b[0]] + b[1..];
    }
  }

  lemma {:induction false} AmongLater(a: seq<PsiNode>, w: PsiNode, b: seq<PsiNode>)
    requires Among(a, b)
    ensures Among(a, [w] + b)
    decreases |b|, 1
  {
    assert ([w] + b)[1..] == b;
    if a != [] && a[0] == w {
      AmongTail(a, b);
    }
  }

  lemma {:induction false} AmongAfter(a: seq<PsiNode>, b: seq<PsiNode>, c: seq<PsiNode>)
    requires Among(a, c)
    ensures Among(a, b + c)
    decreases |b|
  {
    if b == [] {
      assert b + c == c;
    } else {
      AmongAfter(a, b[1..], c);
      AmongLater(a, b[0], b[1..] + c);
      assert [b[0]] + (b[1..] + c) == b + c;
    }
  }

  lemma {:induction false} AmongBoth(a: seq<PsiNode>, b: seq<PsiNode>, c: seq<PsiNode>, d: seq<PsiNode>)
    requires Among(a, b) && Among(c, d)
    ensures Among(a + c, b + d)
    decreases |b|
  {
    if a == [] {
      assert a + c == c;
      AmongAfter(c, b, d);
    } else {
      assert (b + d)[1..] == b[1..] + d && (a + c)[1..] == a[1..] + c;
      if a[0] == b[0] {
        AmongBoth(a[1..], b[1..], c, d);
      } else {
        AmongBoth(a, b[1..], c, d);
      }
    }
  }

  /** The listed subtrees whose height is h. */
  ghost function TreesAt(xs: seq<Shape>, h: nat): seq<Shape> {
    if xs == [] then [] else (if Tall(xs[0]) == h then [xs[0]] else []) + TreesAt(xs[1..], h)
  }

  lemma {:induction false} TreesAtHeads(xs: seq<Shape>, h: nat)
    ensures Heads(TreesAt(xs, h)) == AtHeight(xs, h)
    decreases |xs|
  {
    if xs != [] {
      TreesAtHeads(xs[1..], h);
      assert Heads(TreesAt(xs, h)) == (if Tall(xs[0]) == h then [xs[0].node] else []) + Heads(TreesAt(xs[1..], h));
    }
  }

  lemma {:induction false} TreesAtAppend(a: seq<Shape>, b: seq<Shape>, h: nat)
    ensures TreesAt(a + b, h) == TreesAt(a, h) + TreesAt(b, h)
    decreases |a|
  {
    if a == [] {
      assert a + b == b;
    } else {
      assert (a + b)[1..] == a[1..] + b;
      TreesAtAppend(a[1..], b, h);
    }
  }

  lemma OneTreeAt(x: Shape, h: nat)
    ensures TreesAt([x], h) == if Tall(x) == h then [x] else []
  {
    assert TreesAt([], h) == [];
    assert [x][1..] == [];
  }

  /** A layer lists its nodes from left to right: their leaves, one node after the other, are
      leaves of the tree in the tree's order. */
  lemma {:induction false} LayerLeftToRight(s: Shape, h: nat)
    requires h > 0
    ensures Heads(TreesAt(Internals(s), h)) == Layer(s, h)
    ensures Among(LeavesOf(TreesAt(Internals(s), h)), Leaves(s))
    decreases s, 1
  {
    hide Among, Leaves, Tall;
    TreesAtHeads(Internals(s), h);
    if s.kids != [] {
      TallIs(s);
      TreesAtAppend(InternalsOf(s.kids), [s], h);
      OneTreeAt(s, h);
      LeavesOfAppend(TreesAt(InternalsOf(s.kids), h), TreesAt([s], h));
      LeavesOfKids(s);
      if h == Tall(s) {
        NoTreesAbove(s.kids, h);
        Single(s);
        AmongSame(Leaves(s));
      } else {
        LayersLeftToRight(s.kids, h);
        EmptyAmong([]);
        var below := TreesAt(InternalsOf(s.kids), h);
        assert below + [] == below && LeavesOf(below) + [] == LeavesOf(below);
        assert TreesAt(Internals(s), h) == below;
      }
    } else {
      assert Among([], Leaves(s)) by { EmptyAmong(Leaves(s)); }
    }
  }

  lemma EmptyAmong(b: seq<PsiNode>)
    ensures Among([], b) && LeavesOf([]) == []
  {
  }

  lemma LeavesOfKids(s: Shape)
    requires s.kids != []
    ensures Leaves(s) == LeavesOf(s.kids)
  {
  }

  lemma {:induction false} NoTreesAbove(ss: seq<Shape>, h: nat)
    requires forall i :: 0 <= i < |ss| ==> Tall(ss[i]) < h
    ensures TreesAt(InternalsOf(ss), h) == []
    decreases ss, 0
  {
    if ss != [] {
      NoTreesAbove(ss[1..], h);
      NoTreeAbove(ss[0], h);
      TreesAtAppend(Internals(ss[0]), InternalsOf(ss[1..]), h);
    }
  }

  lemma {:induction false} NoTreeAbove(s: Shape, h: nat)
    requires Tall(s) < h
    ensures TreesAt(Internals(s), h) == []
    decreases s, 1
  {
    if s.kids != [] {
      TallIs(s);
      NoTreesAbove(s.kids, h);
      TreesAtAppend(InternalsOf(s.kids), [s], h);
      OneTreeAt(s, h);
    }
  }

  lemma {:induction false} LayersLeftToRight(ss: seq<Shape>, h: nat)
    requires h > 0
    ensures Among(LeavesOf(TreesAt(InternalsOf(ss), h)), LeavesOf(ss))
    decreases ss, 0
  {
    hide Among, Leaves, Tall, TreesAt;
    if ss == [] {
      EmptyAmong([]);
      assert TreesAt([], h) == [] by { TreesAtHeads([], h); }
    } else {
      LayerLeftToRight(ss[0], h);
      LayersLeftToRight(ss[1..], h);
      TreesAtAppend(Internals(ss[0]), InternalsOf(ss[1..]), h);
      LeavesOfAppend(TreesAt(Internals(ss[0]), h), TreesAt(InternalsOf(ss[1..]), h));
      AmongBoth(LeavesOf(TreesAt(Internals(ss[0]), h)), Leaves(ss[0]), LeavesOf(TreesAt(InternalsOf(ss[1..]), h)), LeavesOf(ss[1..]));
    }
  }

  /** Members of a layer are the nodes of internal subtrees of that height. */
  lemma {:induction false} InLayer(xs: seq<Shape>, h: nat, i: nat) returns (j: nat)
    requires i < |AtHeight(xs, h)|
    ensures j < |xs| && Tall(xs[j]) == h && xs[j].node == AtHeight(xs, h)[i]
    decreases |xs|
  {
    if Tall(xs[0]) == h && i == 0 {
      j := 0;
    } else {
      var k := InLayer(xs[1..], h, if Tall(xs[0]) == h then i - 1 else i);
      j := k + 1;
    }
  }

  lemma {:induction false} InternalInLayer(xs: seq<Shape>, x: Shape)
    requires x in xs
    ensures x.node in AtHeight(xs, Tall(x))
    decreases |xs|
  {
    if x != xs[0] {
      InternalInLayer(xs[1..], x);
    }
  }

  // ------------------------------------------------- every internal node once

  lemma {:induction false} InternalsAreNodes(s: Shape, x: Shape)
    requires x in Internals(s)
    ensures x.node in Nodes(s) && x.kids != []
    decreases s, 1
  {
    if x != s {
      InternalsOfAreNodes(s.kids, x);
    }
  }

  lemma {:induction false} InternalsOfAreNodes(ss: seq<Shape>, x: Shape)
    requires x in InternalsOf(ss)
    ensures x.node in NodesOf(ss) && x.kids != []
    decreases ss, 0
  {
    if x in Internals(ss[0]) {
      InternalsAreNodes(ss[0], x);
    } else {
      InternalsOfAreNodes(ss[1..], x);
    }
  }

  /** Different internal subtrees of a proper tree have different nodes. */
  lemma {:induction false} InternalsDistinct(s: Shape, x: Shape, y: Shape)
    requires Proper(s) && x in Internals(s) && y in Internals(s) && x.node == y.node
    ensures x == y
    decreases s, 1
  {
    if x != s && y != s {
      InternalsOfDistinct(s.kids, x, y);
    } else if x != s {
      InternalsOfAreNodes(s.kids, x);
    } else if y != s {
      InternalsOfAreNodes(s.kids, y);
    }
  }

  lemma {:induction false} InternalsOfDistinct(ss: seq<Shape>, x: Shape, y: Shape)
    requires ProperOf(ss) && x in InternalsOf(ss) && y in InternalsOf(ss) && x.node == y.node
    ensures x == y
    decreases ss, 0
  {
    if x in Internals(ss[0]) { InternalsAreNodes(ss[0], x); }
    if y in Internals(ss[0]) { InternalsAreNodes(ss[0], y); }
    if x in InternalsOf(ss[1..]) { InternalsOfAreNodes(ss[1..], x); }
    if y in InternalsOf(ss[1..]) { InternalsOfAreNodes(ss[1..], y); }
    if x in Internals(ss[0]) && y in Internals(ss[0]) {
      InternalsDistinct(ss[0], x, y);
    } else if x in InternalsOf(ss[1..]) && y in InternalsOf(ss[1..]) {
      InternalsOfDistinct(ss[1..], x, y);
    }
  }

  /** Every internal node of a proper tree is in the layer of its height and in no other. */
  lemma ExactlyOneLayer(s: Shape, x: Shape, h: nat)
    requires Proper(s) && x in Internals(s)
    ensures x.node in Layer(s, h) <==> h == Tall(x)
  {
    InternalInLayer(Internals(s), x);
    if x.node in Layer(s, h) {
      var i :| 0 <= i < |Layer(s, h)| && Layer(s, h)[i] == x.node;
      var j := InLayer(Internals(s), h, i);
      InternalsDistinct(s, x, Internals(s)[j]);
    }
  }

  /** The node of an internal subtree is not a leaf. */
  lemma {:induction false} LeafNotInternal(s: Shape, x: Shape)
    requires Proper(s) && x in Internals(s)
    ensures x.node !in Leaves(s)
    decreases s, 1
  {
    if x == s {
      LeavesOfAreNodes(s.kids);
    } else {
      LeafNotInternalOf(s.kids, x);
    }
  }

  lemma {:induction false} LeafNotInternalOf(ss: seq<Shape>, x: Shape)
    requires ProperOf(ss) && x in InternalsOf(ss)
    ensures x.node !in LeavesOf(ss)
    decreases ss, 0
  {
    LeavesAreNodes(ss[0]);
    LeavesOfAreNodes(ss[1..]);
    if x in Internals(ss[0]) {
      LeafNotInternal(ss[0], x);
      InternalsAreNodes(ss[0], x);
    } else {
      LeafNotInternalOf(ss[1..], x);
      InternalsOfAreNodes(ss[1..], x);
    }
  }

  /** A node of layer h is the node of an internal subtree of height h. */
  lemma Layered(s: Shape, h: nat, w: PsiNode) returns (x: Shape)
    requires w in Layer(s, h)
    ensures x in Internals(s) && Tall(x) == h && x.node == w && x.kids != [] && w in Nodes(s)
  {
    var i :| 0 <= i < |Layer(s, h)| && Layer(s, h)[i] == w;
    var j := InLayer(Internals(s), h, i);
    x := Internals(s)[j];
    InternalsAreNodes(s, x);
  }

  lemma {:induction false} InternalLinked(s: Shape, x: Shape)
    requires InHeap(s) && x in Internals(s)
    ensures x.node in Nodes(s) && x.node.children == Heads(x.kids)
    decreases s, 1
  {
    if x != s {
      InternalOfLinked(s.kids, x);
    }
  }

  lemma {:induction false} InternalOfLinked(ss: seq<Shape>, x: Shape)
    requires AllInHeap(ss) && x in InternalsOf(ss)
    ensures x.node in NodesOf(ss) && x.node.children == Heads(x.kids)
    decreases ss, 0
  {
    if x in Internals(ss[0]) {
      InternalLinked(ss[0], x);
    } else {
      InternalOfLinked(ss[1..], x);
    }
  }

  /** A child of a node of layer h is in no layer from h up: it is a leaf or in a lower one. */
  lemma ChildBelow(s: Shape, h: nat, w: PsiNode, c: PsiNode)
    requires Proper(s) && InHeap(s) && w in Layer(s, h) && w in Nodes(s) && c in w.children
    ensures c in Nodes(s)
    ensures forall k :: k >= h ==> c !in Layer(s, k)
    ensures c in Leaves(s) || exists k :: 1 <= k < h && c in Layer(s, k)
  {
    var x := Layered(s, h, w);
    InternalLinked(s, x);
    var i :| 0 <= i < |x.kids| && x.kids[i].node == c;
    ChildrenLower(s, x, i);
    var y := x.kids[i];
    if y.kids == [] {
      LeavesAreNodes(s);
      forall k: nat | k >= h && c in Layer(s, k) ensures false {
        var z := Layered(s, k, c);
        LeafNotInternal(s, z);
      }
    } else {
      InternalsAreNodes(s, y);
      forall k: nat | k >= h && c in Layer(s, k) ensures false {
        ExactlyOneLayer(s, y, k);
      }
      ExactlyOneLayer(s, y, Tall(y));
    }
  }

  ghost predicate NoRepeats(ws: seq<PsiNode>) {
    forall i, j :: 0 <= i < j < |ws| ==> ws[i] != ws[j]
  }

  lemma NoRepeatsAppend(a: seq<PsiNode>, b: seq<PsiNode>)
    requires NoRepeats(a) && NoRepeats(b) && forall w :: w in a ==> w !in b
    ensures NoRepeats(a + b)
  {
    forall i, j | 0 <= i < j < |a + b| ensures (a + b)[i] != (a + b)[j] {
      if i < |a| <= j {
        assert a[i] in a && b[j - |a|] in b;
      }
    }
  }

  lemma {:induction false} AtHeightMember(xs: seq<Shape>, h: nat, w: PsiNode) returns (x: Shape)
    requires w in AtHeight(xs, h)
    ensures x in xs && x.node == w
    decreases |xs|
  {
    if Tall(xs[0]) == h && xs[0].node == w {
      x := xs[0];
    } else {
      x := AtHeightMember(xs[1..], h, w);
    }
  }

  /** No node occurs twice in a layer. */
  lemma {:induction false} LayerOnce(s: Shape, h: nat)
    requires Proper(s)
    ensures NoRepeats(Layer(s, h))
    decreases s, 1
  {
    if s.kids != [] {
      LayerOfOnce(s.kids, h);
      AtHeightAppend(InternalsOf(s.kids), [s], h);
      forall w | w in AtHeight(InternalsOf(s.kids), h) ensures w != s.node {
        var x := AtHeightMember(InternalsOf(s.kids), h, w);
        InternalsOfAreNodes(s.kids, x);
      }
      NoRepeatsAppend(AtHeight(InternalsOf(s.kids), h), AtHeight([s], h));
    }
  }

  lemma {:induction false} LayerOfOnce(ss: seq<Shape>, h: nat)
    requires ProperOf(ss)
    ensures NoRepeats(AtHeight(InternalsOf(ss), h))
    decreases ss, 0
  {
    if ss != [] {
      LayerOnce(ss[0], h);
      LayerOfOnce(ss[1..], h);
      AtHeightAppend(Internals(ss[0]), InternalsOf(ss[1..]), h);
      var a, b := AtHeight(Internals(ss[0]), h), AtHeight(InternalsOf(ss[1..]), h);
      forall w | w in a && w in b ensures false {
        var x := AtHeightMember(Internals(ss[0]), h, w);
        var y := AtHeightMember(InternalsOf(ss[1..]), h, w);
        InternalsAreNodes(ss[0], x);
        InternalsOfAreNodes(ss[1..], y);
      }
      NoRepeatsAppend(a, b);
    }
  }

  // ------------------------------------------------- counting

  /** Nodes of the listed subtrees in the layers from 1 to m. */
  ghost function LayerTotal(xs: seq<Shape>, m: nat): nat {
    if m == 0 then 0 else LayerTotal(xs, m - 1) + |AtHeight(xs, m)|
  }

  lemma AtHeightFirst(xs: seq<Shape>, h: nat)
    requires xs != []
    ensures |AtHeight(xs, h)| == |AtHeight(xs[1..], h)| + if Tall(xs[0]) == h then 1 else 0
  {
    hide Tall;
  }

  lemma {:induction false} LayerTotalStep(xs: seq<Shape>, m: nat)
    requires xs != []
    ensures LayerTotal(xs, m) == LayerTotal(xs[1..], m) + if 1 <= Tall(xs[0]) <= m then 1 else 0
    decreases m
  {
    hide Tall, AtHeight;
    if m > 0 {
      LayerTotalStep(xs, m - 1);
      AtHeightFirst(xs, m);
    }
  }

  lemma {:induction false} NoneListed(m: nat)
    ensures LayerTotal([], m) == 0
    decreases m
  {
    if m > 0 {
      NoneListed(m - 1);
    }
  }

  lemma {:induction false} TotalBounded(xs: seq<Shape>, m: nat)
    ensures LayerTotal(xs, m) <= |xs|
    ensures (forall x :: x in xs ==> 1 <= Tall(x) <= m) ==> LayerTotal(xs, m) == |xs|
    decreases |xs|
  {
    if xs == [] {
      NoneListed(m);
    } else {
      LayerTotalStep(xs, m);
      TotalBounded(xs[1..], m);
    }
  }

  lemma {:induction false} InternalTall(s: Shape, x: Shape)
    requires x in Internals(s)
    ensures 1 <= Tall(x) <= Tall(s)
    decreases s, 1
  {
    if x != s {
      InternalOfTall(s.kids, x);
    }
  }

  lemma {:induction false} InternalOfTall(ss: seq<Shape>, x: Shape)
    requires x in InternalsOf(ss)
    ensures 1 <= Tall(x) <= TallestOf(ss)
    decreases ss, 0
  {
    if x in Internals(ss[0]) {
      InternalTall(ss[0], x);
    } else {
      InternalOfTall(ss[1..], x);
    }
  }

  /** The layers together hold every internal node once. */
  lemma LayersHoldAll(s: Shape, m: nat)
    ensures LayerTotal(Internals(s), m) <= InternalCount(s)
    ensures m == Tall(s) ==> LayerTotal(Internals(s), m) == InternalCount(s)
  {
    InternalsCounted(s);
    TotalBounded(Internals(s), m);
    forall x | x in Internals(s) ensures 1 <= Tall(x) <= Tall(s) { InternalTall(s, x); }
  }

  // ------------------------------------------------- the layer dictionary

  ghost function Listed(layers: map<nat, seq<PsiNode>>, h: nat): seq<PsiNode> {
    if h in layers then layers[h] else []
  }

  /** The dictionary has grown by the internal subtrees xs, layer by layer, and holds no
      empty list that was not there before. */
  ghost predicate GrownBy(before: map<nat, seq<PsiNode>>, after: map<nat, seq<PsiNode>>, xs: seq<Shape>) {
    && (forall h: nat :: Listed(after, h) == Listed(before, h) + AtHeight(xs, h))
    && (forall h: nat :: h in after <==> h in before || AtHeight(xs, h) != [])
  }

  lemma GrownAt(a: map<nat, seq<PsiNode>>, b: map<nat, seq<PsiNode>>, xs: seq<Shape>, h: nat)
    requires GrownBy(a, b, xs)
    ensures Listed(b, h) == Listed(a, h) + AtHeight(xs, h)
    ensures h in b <==> h in a || AtHeight(xs, h) != []
  {
    hide AtHeight;
  }

  lemma GrownTwiceAt(a: map<nat, seq<PsiNode>>, b: map<nat, seq<PsiNode>>, c: map<nat, seq<PsiNode>>, xs: seq<Shape>, ys: seq<Shape>, h: nat)
    requires GrownBy(a, b, xs) && GrownBy(b, c, ys)
    ensures Listed(c, h) == Listed(a, h) + AtHeight(xs + ys, h)
    ensures h in c <==> h in a || AtHeight(xs + ys, h) != []
  {
    hide AtHeight, Listed, GrownBy;
    AtHeightAppend(xs, ys, h);
    GrownAt(a, b, xs, h);
    GrownAt(b, c, ys, h);
    Joined(Listed(a, h), AtHeight(xs, h), AtHeight(ys, h));
  }

  lemma Joined(a: seq<PsiNode>, b: seq<PsiNode>, c: seq<PsiNode>)
    ensures (a + b) + c == a + (b + c)
  {
  }

  lemma GrownTwice(a: map<nat, seq<PsiNode>>, b: map<nat, seq<PsiNode>>, c: map<nat, seq<PsiNode>>, xs: seq<Shape>, ys: seq<Shape>)
    requires GrownBy(a, b, xs) && GrownBy(b, c, ys)
    ensures GrownBy(a, c, xs + ys)
  {
    forall h: nat ensures Listed(c, h) == Listed(a, h) + AtHeight(xs + ys, h) {
      hide AtHeight, Listed, GrownBy;
      GrownTwiceAt(a, b, c, xs, ys, h);
    }
    forall h: nat ensures h in c <==> h in a || AtHeight(xs + ys, h) != [] {
      hide AtHeight, Listed, GrownBy;
      GrownTwiceAt(a, b, c, xs, ys, h);
    }
    hide AtHeight, Listed;
  }

  /** `height`: the node's height; the dictionary gains its internal subtrees. */
  method CollectHeight(node: PsiNode, layers: map<nat, seq<PsiNode>>, ghost s: Shape)
    returns (height: nat, layers': map<nat, seq<PsiNode>>)
    requires s.node == node && InHeap(s)
    ensures height == Tall(s) && GrownBy(layers, layers', Internals(s))
    decreases s, 1
  {
    if |node.children| == 0 {
      return 0, layers;
    }
    var tallest;
    tallest, layers' := CollectHeights(node.children, layers, s.kids);
    height := tallest + 1;
    ghost var middle := layers';
    layers' := layers'[height := (if height in layers' then layers'[height] else []) + [node]];
    forall h: nat ensures AtHeight([s], h) == if h == height then [node] else [] { }
    assert GrownBy(middle, layers', [s]);
    GrownTwice(layers, middle, layers', InternalsOf(s.kids), [s]);
  }

  lemma NothingGrown(layers: map<nat, seq<PsiNode>>, ss: seq<Shape>)
    ensures TallestOf(ss[..0]) == 0 && GrownBy(layers, layers, InternalsOf(ss[..0]))
  {
  }

  /** `max(height(child) for child in node.children)`. */
  method CollectHeights(nodes: seq<PsiNode>, layers: map<nat, seq<PsiNode>>, ghost ss: seq<Shape>)
    returns (tallest: nat, layers': map<nat, seq<PsiNode>>)
    requires nodes == Heads(ss) && AllInHeap(ss)
    ensures tallest == TallestOf(ss) && GrownBy(layers, layers', InternalsOf(ss))
    decreases ss, 0
  {
    hide GrownBy, TallestOf, InternalsOf, Internals, AllInHeap;
    NodesOfAllocated(ss);
    tallest, layers' := 0, layers;
    NothingGrown(layers, ss);
    for i := 0 to |nodes|
      invariant tallest == TallestOf(ss[..i]) && GrownBy(layers, layers', InternalsOf(ss[..i]))
      invariant AllInHeap(ss)
    {
      AllInHeapElim(ss, i);
      ghost var middle := layers';
      var height;
      height, layers' := CollectHeight(nodes[i], layers', ss[i]);
      GrownTwice(layers, middle, layers', InternalsOf(ss[..i]), Internals(ss[i]));
      PrefixNext(ss, i);
      if height > tallest {
        tallest := height;
      }
    }
    assert ss[..|nodes|] == ss;
  }

  lemma {:induction false} InternalsOfAppend(a: seq<Shape>, b: seq<Shape>)
    ensures InternalsOf(a + b) == InternalsOf(a) + InternalsOf(b)
    ensures TallestOf(a + b) == if TallestOf(a) >= TallestOf(b) then TallestOf(a) else TallestOf(b)
    decreases |a|
  {
    if a == [] {
      assert a + b == b;
    } else {
      assert (a + b)[1..] == a[1..] + b;
      InternalsOfAppend(a[1..], b);
    }
  }

  lemma PrefixNext(ss: seq<Shape>, i: nat)
    requires i < |ss|
    ensures InternalsOf(ss[..i + 1]) == InternalsOf(ss[..i]) + Internals(ss[i])
    ensures TallestOf(ss[..i + 1]) == if TallestOf(ss[..i]) >= Tall(ss[i]) then TallestOf(ss[..i]) else Tall(ss[i])
  {
    var one: seq<Shape> := [ss[i]];
    assert ss[..i + 1] == ss[..i] + one;
    assert one[1..] == [];
    assert InternalsOf(one) == Internals(ss[i]) + [] && TallestOf(one) == Tall(ss[i]);
    InternalsOfAppend(ss[..i], one);
  }

  /** `_psi_layers`: exactly the layers from 1 to the root's height. */
  method CollectLayers(root: PsiNode, ghost s: Shape) returns (layers: map<nat, seq<PsiNode>>)
    requires s.node == root && InHeap(s)
    ensures forall h: nat :: h in layers <==> 1 <= h <= Tall(s)
    ensures forall h: nat :: h in layers ==> layers[h] == Layer(s, h)
  {
    var height;
    height, layers := CollectHeight(root, map[], s);
    forall h: nat
      ensures h in layers <==> 1 <= h <= Tall(s)
      ensures h in layers ==> layers[h] == Layer(s, h)
    {
      LayerCollected(layers, s, h);
    }
  }

  lemma LayerCollected(layers: map<nat, seq<PsiNode>>, s: Shape, h: nat)
    requires GrownBy(map[], layers, Internals(s))
    ensures h in layers <==> 1 <= h <= Tall(s)
    ensures h in layers ==> layers[h] == Layer(s, h)
  {
    assert Listed(layers, h) == [] + AtHeight(Internals(s), h);
    if 1 <= h <= Tall(s) {
      LayersFilled(s, h);
    } else if h > Tall(s) {
      TopLayer(s, h);
    } else {
      NoneAtZero(s);
    }
  }

  lemma NoneAtZero(s: Shape)
    ensures Layer(s, 0) == []
  {
    if Layer(s, 0) != [] {
      var j := InLayer(Internals(s), 0, 0);
      InternalsAreNodes(s, Internals(s)[j]);
    }
  }
}
