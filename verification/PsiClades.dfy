/** Which leaves lie together: the nodes of the exact tree are the classes of the ranking. */
module PsiClades {
  import opened MergeHierarchy
  import opened PsiNodes
  import opened PsiRegroup
  import opened PsiTree
  import TS = PsiTreeShape

  // ------------------------------------------------- classes and trees

  /** The leaves of the input trees that meet tree x at level k. */
  ghost function Meeting(shapes: seq<Shape>, pairs: seq<Pair>, k: nat, x: nat): set<PsiNode> {
    set y: nat, v | y < |shapes| && v in Leaves(shapes[y]) && Meet(pairs, k, x, y) :: v
  }

  ghost function Members(ws: seq<PsiNode>): set<PsiNode> {
    set w | w in ws
  }

  /** Some node of the tree has exactly these leaves. */
  ghost predicate HasClade(s: Shape, vs: set<PsiNode>) {
    exists c :: c in Clades(s) && Members(c.1) == vs
  }

  /** The node is one of the input trees, or its leaves are a class of the ranking. */
  ghost predicate Classed(c: Clade, shapes: seq<Shape>, pairs: seq<Pair>) {
    c in CladesOf(shapes) || exists k: nat, x: nat :: x < |shapes| && Members(c.1) == Meeting(shapes, pairs, k, x)
  }

  /** Every class of the ranking, at every level, is the leaves of a node of the tree; the input
      trees stand in it as they were; and it has no other nodes. */
  ghost predicate ByMeetings(s: Shape, shapes: seq<Shape>, pairs: seq<Pair>) {
    && (forall k: nat, x: nat :: x < |shapes| ==> HasClade(s, Meeting(shapes, pairs, k, x)))
    && CladesOf(shapes) <= Clades(s)
    && forall c :: c in Clades(s) ==> Classed(c, shapes, pairs)
  }

  // ------------------------------------------------- lists of trees

  lemma {:induction false} CladesOfMember(ss: seq<Shape>, i: nat)
    requires i < |ss|
    ensures Clades(ss[i]) <= CladesOf(ss)
    decreases |ss|
  {
    hide Clades;
    if i > 0 {
      CladesOfMember(ss[1..], i - 1);
    }
  }

  lemma {:induction false} InCladesOf(ss: seq<Shape>, c: Clade) returns (i: nat)
    requires c in CladesOf(ss)
    ensures i < |ss| && c in Clades(ss[i])
    decreases |ss|
  {
    hide Clades;
    i := 0;
    if c !in Clades(ss[0]) {
      i := InCladesOf(ss[1..], c);
      i := i + 1;
    }
  }

  lemma {:induction false} InLeavesOf(ss: seq<Shape>, v: PsiNode)
    ensures v in LeavesOf(ss) <==> exists i :: 0 <= i < |ss| && v in Leaves(ss[i])
    decreases |ss|
  {
    hide Leaves;
    if ss != [] {
      InLeavesOf(ss[1..], v);
      if i :| 0 <= i < |ss| - 1 && v in Leaves(ss[1..][i]) {
        assert ss[i + 1] == ss[1..][i];
      }
      if i :| 0 < i < |ss| && v in Leaves(ss[i]) {
        assert ss[1..][i - 1] == ss[i];
      }
    }
  }

  // ------------------------------------------------- the parent array

  /** The array has one root, at level h, which every leaf reaches after h steps. */
  ghost predicate Rooted(t: seq<int>, n: nat, root: nat, h: nat) {
    && n <= |t| && root < |t| && t[root] == -1
    && (forall x {:trigger TS.Up(t, x, h)} :: 0 <= x < n ==> TS.Up(t, x, h) == root)
  }

  lemma {:induction false} UpStays(t: seq<int>, x: nat, k: nat, m: nat)
    requires x < |t| && k <= m && TS.Up(t, x, m) >= 0
    ensures TS.Up(t, x, k) >= 0
    decreases m
  {
    if k < m {
      UpStays(t, x, k, m - 1);
    }
  }

  lemma {:induction false} UpIsClimb(t: seq<int>, x: nat, k: nat)
    requires x < |t| && TS.Up(t, x, k) >= 0
    ensures Climb(t, x, k) == TS.Up(t, x, k)
    decreases k
  {
    if k > 0 {
      UpStays(t, x, k - 1, k);
      UpIsClimb(t, x, k - 1);
    }
  }

  lemma {:induction false} ClimbEnds(t: seq<int>, n: nat, root: nat, h: nat, x: nat, k: nat)
    requires Rooted(t, n, root, h) && x < n && k >= h
    ensures Climb(t, x, k) == root
    decreases k
  {
    if k == h {
      UpIsClimb(t, x, h);
    } else {
      ClimbEnds(t, n, root, h, x, k - 1);
    }
  }

  /** Entries that leaves reach are no higher than the root. */
  lemma ReachedLevel(t: seq<int>, n: nat, root: nat, h: nat, x: nat, k: nat)
    requires Rooted(t, n, root, h) && x < n && TS.Up(t, x, k) >= 0
    ensures k <= h
  {
    assert TS.Up(t, x, h) == root;
    var above: nat := h + 1;
    assert TS.Up(t, x, above) == -1;
    if k > h {
      UpStays(t, x, above, k);
    }
  }

  // ------------------------------------------------- subtrees of the exact tree

  lemma KidsInside(t: seq<int>, lev: seq<nat>, local: map<nat, PsiNode>, shapes: seq<Shape>, id: nat, k: nat)
    requires TS.Tabled(t, local, shapes) && TS.Levelled(t, |shapes|, lev) && id < |t| && lev[id] == k
    requires t[id] >= 0
    ensures t[id] < |t| && lev[t[id]] == k + 1
    ensures Clades(TS.ShapeAt(t, local, shapes, id, k)) <= Clades(TS.ShapeAt(t, local, shapes, t[id], k + 1))
  {
    hide Clades, TS.Tabled, TS.KidIds;
    var above: nat := t[id];
    TS.KidsBelow(t, lev, local, shapes, above, k + 1);
    var kids := TS.Kids(t, above);
    assert id in kids;
    var i :| 0 <= i < |kids| && kids[i] == id;
    var ss := TS.ShapesAt(t, local, shapes, kids, k);
    CladesOfMember(ss, i);
    CladesSplit(TS.ShapeAt(t, local, shapes, above, k + 1));
  }

  lemma CladesSplit(s: Shape)
    ensures CladesOf(s.kids) <= Clades(s) && (s.node, Leaves(s)) in Clades(s)
    ensures forall c :: c in Clades(s) ==> c == (s.node, Leaves(s)) || c in CladesOf(s.kids)
  {
  }

  lemma UpNext(t: seq<int>, x: nat, m: nat)
    requires x < |t| && m > 0 && TS.Up(t, x, m) >= 0
    ensures 0 <= TS.Up(t, x, m - 1) < |t| && t[TS.Up(t, x, m - 1)] == TS.Up(t, x, m)
  {
  }

  lemma {:induction false} UpInside(t: seq<int>, lev: seq<nat>, local: map<nat, PsiNode>, shapes: seq<Shape>, x: nat, m: nat)
    requires TS.Tabled(t, local, shapes) && TS.Levelled(t, |shapes|, lev) && x < |t| && TS.Up(t, x, m) >= 0
    ensures TS.Up(t, x, m) < |t| == |lev| && lev[TS.Up(t, x, m)] == lev[x] + m
    ensures Clades(TS.ShapeAt(t, local, shapes, x, lev[x])) <= Clades(TS.ShapeAt(t, local, shapes, TS.Up(t, x, m), lev[x] + m))
    decreases m
  {
    hide Clades, TS.Tabled, TS.ShapeAt, TS.Levelled, TS.Up;
    LevelAt(t, lev, |shapes|, x, m);
    if m > 0 {
      UpNext(t, x, m);
      LevelAt(t, lev, |shapes|, x, m - 1);
      UpInside(t, lev, local, shapes, x, m - 1);
      KidsInside(t, lev, local, shapes, TS.Up(t, x, m - 1), lev[x] + m - 1);
    }
  }

  lemma LevelAt(t: seq<int>, lev: seq<nat>, n: nat, x: nat, m: nat)
    requires TS.Levelled(t, n, lev) && x < |t| && TS.Up(t, x, m) >= 0
    ensures TS.Up(t, x, m) < |t| == |lev| && lev[TS.Up(t, x, m)] == lev[x] + m && (m == 0 ==> TS.Up(t, x, m) == x)
  {
    TS.UpLevel(t, n, lev, x, m);
  }

  lemma {:induction false} BelowSome(t: seq<int>, lev: seq<nat>, n: nat, id: nat, k: nat)
    requires TS.Levelled(t, n, lev) && id < |t| && lev[id] == k
    ensures TS.Below(t, id, k) != []
    decreases k
  {
    if k > 0 {
      TS.TwoKidsAbove(t, n, lev, id);
      hide TS.KidIds;
      var first := TS.Kids(t, id)[0];
      assert t[first] == id;
      BelowSome(t, lev, n, first, k - 1);
    }
  }

  /** Some leaf lies below every entry. */
  lemma LeafBelow(t: seq<int>, lev: seq<nat>, n: nat, id: nat, k: nat) returns (x: nat)
    requires TS.Levelled(t, n, lev) && id < |t| && lev[id] == k
    ensures x < n && TS.Up(t, x, k) == id
  {
    BelowSome(t, lev, n, id, k);
    TS.BelowAreLeaves(t, n, lev, id, k);
    x := TS.Below(t, id, k)[0];
    TS.BelowIsUp(t, id, k, x);
  }

  /** The leaves below an entry of level k are those of the input trees that reach it. */
  lemma EntryLeaves(t: seq<int>, lev: seq<nat>, local: map<nat, PsiNode>, shapes: seq<Shape>, id: nat, k: nat, v: PsiNode)
    requires TS.Tabled(t, local, shapes) && TS.Levelled(t, |shapes|, lev) && id < |t| && lev[id] == k
    ensures v in Leaves(TS.ShapeAt(t, local, shapes, id, k))
      <==> exists y: nat :: y < |shapes| && TS.Up(t, y, k) == id && v in Leaves(shapes[y])
  {
    TS.ShapeLeaves(t, lev, local, shapes, id, k);
    hide Leaves, LeavesOf, TS.Up, TS.Below, TS.ShapeAt, TS.Levelled;
    var below := TS.Below(t, id, k);
    var picked := TS.Pick(shapes, below);
    InLeavesOf(picked, v);
    forall y: nat ensures y in below <==> y < |t| && TS.Up(t, y, k) == id { TS.BelowIsUp(t, id, k, y); }
    if i :| 0 <= i < |picked| && v in Leaves(picked[i]) {
      assert below[i] in below && picked[i] == shapes[below[i]];
    }
    if y: nat :| y < |shapes| && TS.Up(t, y, k) == id && v in Leaves(shapes[y]) {
      assert y < |t|;
      var i :| 0 <= i < |below| && below[i] == y;
      assert picked[i] == shapes[y];
    }
  }

  /** What an array and a ranking have to do with each other. */
  ghost predicate Ranked(t: seq<int>, n: nat, pairs: seq<Pair>) {
    n <= |t| && forall k: nat, x: nat, y: nat :: x < n && y < n ==> (Climb(t, x, k) == Climb(t, y, k) <==> Meet(pairs, k, x, y))
  }

  lemma RankedAt(t: seq<int>, n: nat, pairs: seq<Pair>, k: nat, x: nat, y: nat)
    requires Ranked(t, n, pairs) && x < n && y < n
    ensures Climb(t, x, k) == Climb(t, y, k) <==> Meet(pairs, k, x, y)
  {
    hide Meet, Climb;
  }

  /** The leaves below the k-th ancestor of x are those of the trees that meet x at level k. */
  lemma EntryMeeting(t: seq<int>, lev: seq<nat>, local: map<nat, PsiNode>, shapes: seq<Shape>, pairs: seq<Pair>, root: nat, h: nat, k: nat, x: nat)
    requires TS.Tabled(t, local, shapes) && TS.Levelled(t, |shapes|, lev) && Rooted(t, |shapes|, root, h) && Ranked(t, |shapes|, pairs)
    requires x < |shapes| && x < |t| && TS.Up(t, x, k) >= 0
    ensures TS.Up(t, x, k) < |t|
    ensures Members(Leaves(TS.ShapeAt(t, local, shapes, TS.Up(t, x, k), k))) == Meeting(shapes, pairs, k, x)
  {
    hide Members, Meeting, Leaves, TS.ShapeAt, TS.Up, Meet, TS.Tabled, TS.Levelled, Rooted, Ranked;
    EntryOf(t, lev, |shapes|, x, k);
    ReachedLevel(t, |shapes|, root, h, x, k);
    var id: nat := TS.Up(t, x, k);
    forall y: nat | y < |shapes| ensures y < |t| && (TS.Up(t, y, k) == id <==> Meet(pairs, k, x, y)) {
      UpTogether(t, shapes, pairs, root, h, k, x, y);
    }
    var mine, theirs := Members(Leaves(TS.ShapeAt(t, local, shapes, id, k))), Meeting(shapes, pairs, k, x);
    forall v | v in mine + theirs ensures v in mine && v in theirs {
      EntryLeaves(t, lev, local, shapes, id, k, v);
      InMembers(Leaves(TS.ShapeAt(t, local, shapes, id, k)), v);
      InMeeting(shapes, pairs, k, x, v);
    }
    assert mine == theirs;
  }

  lemma InMembers(ws: seq<PsiNode>, v: PsiNode)
    ensures v in Members(ws) <==> v in ws
  {
  }

  lemma InMeeting(shapes: seq<Shape>, pairs: seq<Pair>, k: nat, x: nat, v: PsiNode)
    ensures v in Meeting(shapes, pairs, k, x) <==> exists y: nat :: y < |shapes| && v in Leaves(shapes[y]) && Meet(pairs, k, x, y)
  {
    hide Leaves, Meet;
  }

  lemma EntryOf(t: seq<int>, lev: seq<nat>, n: nat, x: nat, k: nat)
    requires TS.Levelled(t, n, lev) && x < n && x < |t| && TS.Up(t, x, k) >= 0
    ensures TS.Up(t, x, k) < |t| == |lev| && lev[TS.Up(t, x, k)] == k
  {
    TS.UpLevel(t, n, lev, x, k);
  }

  lemma UpTogether(t: seq<int>, shapes: seq<Shape>, pairs: seq<Pair>, root: nat, h: nat, k: nat, x: nat, y: nat)
    requires Rooted(t, |shapes|, root, h) && Ranked(t, |shapes|, pairs) && x < |shapes| && y < |shapes|
    requires x < |t| && TS.Up(t, x, k) >= 0 && k <= h
    ensures y < |t| && TS.Up(t, y, k) >= 0
    ensures TS.Up(t, y, k) == TS.Up(t, x, k) <==> Meet(pairs, k, x, y)
  {
    assert TS.Up(t, y, h) == root;
    UpStays(t, y, k, h);
    UpIsClimb(t, x, k);
    UpIsClimb(t, y, k);
    RankedAt(t, |shapes|, pairs, k, x, y);
    hide Meet, Climb, TS.Up;
  }

  /** A node of the tree of an entry is inside an input tree or is the node of an entry. */
  lemma {:induction false} CladeOwner(t: seq<int>, lev: seq<nat>, local: map<nat, PsiNode>, shapes: seq<Shape>, id: nat, k: nat, c: Clade)
    returns (d: nat)
    requires TS.Tabled(t, local, shapes) && TS.Levelled(t, |shapes|, lev) && id < |t| && lev[id] == k
    requires c in Clades(TS.ShapeAt(t, local, shapes, id, k))
    ensures d < |t|
    ensures if d < |shapes| then c in Clades(shapes[d]) else c.1 == Leaves(TS.ShapeAt(t, local, shapes, d, lev[d]))
    decreases k
  {
    hide Clades, CladesOf, Leaves, TS.Tabled, TS.Levelled, TS.ShapeAt, TS.ShapesAt, TS.Kids;
    d := id;
    SameSize(t, lev, |shapes|);
    if k == 0 {
      TS.LeafShape(t, lev, local, shapes, id);
    } else {
      HighEntry(t, lev, |shapes|, id);
      TS.KidsBelow(t, lev, local, shapes, id, k);
      var s := TS.ShapeAt(t, local, shapes, id, k);
      CladesSplit(s);
      if c != (s.node, Leaves(s)) {
        var i := InCladesOf(s.kids, c);
        d := CladeOwner(t, lev, local, shapes, TS.Kids(t, id)[i], k - 1, c);
      }
    }
  }

  lemma SameSize(t: seq<int>, lev: seq<nat>, n: nat)
    requires TS.Levelled(t, n, lev)
    ensures n <= |t| == |lev|
  {
  }

  lemma HighEntry(t: seq<int>, lev: seq<nat>, n: nat, id: nat)
    requires TS.Levelled(t, n, lev) && id < |t|
    ensures lev[id] > 0 ==> id >= n
  {
  }

  /** The tree of a rooted array that agrees with the ranking. */
  lemma TreeByMeetings(t: seq<int>, lev: seq<nat>, local: map<nat, PsiNode>, shapes: seq<Shape>, pairs: seq<Pair>, root: nat, h: nat)
    requires TS.Tabled(t, local, shapes) && TS.Levelled(t, |shapes|, lev) && Rooted(t, |shapes|, root, h) && Ranked(t, |shapes|, pairs)
    requires root < |lev| && lev[root] == h
    ensures ByMeetings(TS.ShapeAt(t, local, shapes, root, h), shapes, pairs)
  {
    var s := TS.ShapeAt(t, local, shapes, root, h);
    hide TS.ShapeAt, Meeting, Clades, CladesOf, TS.Tabled, TS.Levelled, Rooted, Ranked, Leaves, Classed, HasClade;
    forall k: nat, x: nat | x < |shapes| ensures HasClade(s, Meeting(shapes, pairs, k, x)) {
      ClassIsClade(t, lev, local, shapes, pairs, root, h, k, x);
    }
    forall c | c in CladesOf(shapes) ensures c in Clades(s) {
      InputInside(t, lev, local, shapes, root, h, c);
    }
    forall c | c in Clades(s) ensures Classed(c, shapes, pairs) {
      CladeIsClass(t, lev, local, shapes, pairs, root, h, c);
    }
  }

  lemma LeafFacts(t: seq<int>, lev: seq<nat>, n: nat, root: nat, h: nat, x: nat)
    requires TS.Levelled(t, n, lev) && Rooted(t, n, root, h) && x < n
    ensures x < |t| == |lev| && lev[x] == 0 && TS.Up(t, x, h) == root && root < |t|
  {
  }

  lemma InputInside(t: seq<int>, lev: seq<nat>, local: map<nat, PsiNode>, shapes: seq<Shape>, root: nat, h: nat, c: Clade)
    requires TS.Tabled(t, local, shapes) && TS.Levelled(t, |shapes|, lev) && Rooted(t, |shapes|, root, h)
    requires root < |lev| && lev[root] == h && c in CladesOf(shapes)
    ensures c in Clades(TS.ShapeAt(t, local, shapes, root, h))
  {
    hide Clades, CladesOf, TS.Tabled, TS.Levelled, Rooted, TS.ShapeAt, TS.Up;
    var x := InCladesOf(shapes, c);
    LeafFacts(t, lev, |shapes|, root, h, x);
    TS.LeafShape(t, lev, local, shapes, x);
    UpInside(t, lev, local, shapes, x, h);
  }

  lemma ClassIsClade(t: seq<int>, lev: seq<nat>, local: map<nat, PsiNode>, shapes: seq<Shape>, pairs: seq<Pair>, root: nat, h: nat, k: nat, x: nat)
    requires TS.Tabled(t, local, shapes) && TS.Levelled(t, |shapes|, lev) && Rooted(t, |shapes|, root, h) && Ranked(t, |shapes|, pairs)
    requires root < |lev| && lev[root] == h && x < |shapes|
    ensures HasClade(TS.ShapeAt(t, local, shapes, root, h), Meeting(shapes, pairs, k, x))
  {
    hide TS.ShapeAt, Meeting, Clades, TS.Tabled, TS.Levelled, Rooted, Ranked, Leaves, TS.Up;
    LeafFacts(t, lev, |shapes|, root, h, x);
    var j := if k <= h then k else h;
    UpStays(t, x, j, h);
    EntryMeeting(t, lev, local, shapes, pairs, root, h, j, x);
    UpInside(t, lev, local, shapes, x, j);
    var id: nat := TS.Up(t, x, j);
    LeafBelowRoot(t, lev, local, shapes, root, h, x, j);
    var s := TS.ShapeAt(t, local, shapes, id, j);
    CladesSplit(s);
    if k > h {
      SameAbove(t, shapes, pairs, root, h, k, x);
    }
    var c := (s.node, Leaves(s));
    assert c in Clades(TS.ShapeAt(t, local, shapes, root, h)) && Members(c.1) == Meeting(shapes, pairs, k, x);
  }

  lemma LeafBelowRoot(t: seq<int>, lev: seq<nat>, local: map<nat, PsiNode>, shapes: seq<Shape>, root: nat, h: nat, x: nat, j: nat)
    requires TS.Tabled(t, local, shapes) && TS.Levelled(t, |shapes|, lev) && Rooted(t, |shapes|, root, h)
    requires root < |lev| && lev[root] == h && x < |shapes| && j <= h && 0 <= TS.Up(t, x, j) < |t|
    ensures Clades(TS.ShapeAt(t, local, shapes, TS.Up(t, x, j), j)) <= Clades(TS.ShapeAt(t, local, shapes, root, h))
  {
    hide TS.ShapeAt, Clades, TS.Tabled, TS.Levelled, Rooted, TS.Up;
    LeafFacts(t, lev, |shapes|, root, h, x);
    var id: nat := TS.Up(t, x, j);
    UpInside(t, lev, local, shapes, x, j);
    UpTwice(t, x, j, h - j);
    UpInside(t, lev, local, shapes, id, h - j);
  }

  lemma {:induction false} UpTwice(t: seq<int>, x: nat, a: nat, b: nat)
    requires x < |t| && 0 <= TS.Up(t, x, a) < |t|
    ensures TS.Up(t, TS.Up(t, x, a), b) == TS.Up(t, x, a + b)
    decreases b
  {
    if b > 0 {
      UpTwice(t, x, a, b - 1);
    }
  }

  /** Above the root's level all leaves meet, as they do there. */
  lemma SameAbove(t: seq<int>, shapes: seq<Shape>, pairs: seq<Pair>, root: nat, h: nat, k: nat, x: nat)
    requires Rooted(t, |shapes|, root, h) && Ranked(t, |shapes|, pairs) && x < |shapes| && k >= h
    ensures Meeting(shapes, pairs, k, x) == Meeting(shapes, pairs, h, x)
  {
    hide Meet, Climb, Leaves, TS.Up;
    forall y: nat | y < |shapes| ensures Meet(pairs, k, x, y) && Meet(pairs, h, x, y) {
      ClimbEnds(t, |shapes|, root, h, x, k);
      ClimbEnds(t, |shapes|, root, h, y, k);
      ClimbEnds(t, |shapes|, root, h, x, h);
      ClimbEnds(t, |shapes|, root, h, y, h);
      RankedAt(t, |shapes|, pairs, k, x, y);
      RankedAt(t, |shapes|, pairs, h, x, y);
    }
  }

  lemma CladeIsClass(t: seq<int>, lev: seq<nat>, local: map<nat, PsiNode>, shapes: seq<Shape>, pairs: seq<Pair>, root: nat, h: nat, c: Clade)
    requires TS.Tabled(t, local, shapes) && TS.Levelled(t, |shapes|, lev) && Rooted(t, |shapes|, root, h) && Ranked(t, |shapes|, pairs)
    requires root < |lev| && lev[root] == h && c in Clades(TS.ShapeAt(t, local, shapes, root, h))
    ensures Classed(c, shapes, pairs)
  {
    hide TS.ShapeAt, Meeting, Clades, CladesOf, TS.Tabled, Rooted, Ranked, Leaves, TS.Up;
    var d := CladeOwner(t, lev, local, shapes, root, h, c);
    if d < |shapes| {
      CladesOfMember(shapes, d);
    } else {
      var k := lev[d];
      var x := LeafBelow(t, lev, |shapes|, d, k);
      EntryMeeting(t, lev, local, shapes, pairs, root, h, k, x);
      assert Members(c.1) == Meeting(shapes, pairs, k, x);
    }
  }
}
