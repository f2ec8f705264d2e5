/** What the union-find keeps between its calls, on values, and what that says about the
    finished parent array. */
module PsiInvariant {
  import opened MergeHierarchy
  import opened PsiForest
  import opened PsiTree
  import opened PsiChains
  import opened PsiRefinement

  // ------------------------------------------------- the invariant on values

  /** Everything the structure keeps, apart from the chains. */
  ghost predicate Sound(f: Forest, tree: seq<int>, log: seq<Pair>) {
    && Shaped(f) && Labelled(f) && Covered(f) && Paired(f) && Heavy(f) && TreeOf(f, tree) && Refines(f, log)
    && |tree| == (if |f.rank| == 0 then 1 else 2 * |f.rank| - 1)
    && f.next + |Roots(f)| <= 2 * |f.rank|
  }

  lemma FreshForest(f: Forest)
    requires Fresh(f)
    ensures Shaped(f) && Labelled(f) && Covered(f) && Paired(f) && Refines(f, [])
  {
    forall id: nat | id < f.next ensures Named(f, id) { assert Names(f, id, 0, id); }
  }

  lemma FreshHeavy(f: Forest)
    requires Fresh(f) && Shaped(f)
    ensures Heavy(f)
  {
    forall r {:trigger Component(f, r)} | 0 <= r < |f.rank| && f.par[r] < 0 ensures Pow2(f.rank[r]) <= |Component(f, r)| {
      assert Component(f, r) == {r};
    }
  }

  /** The initial lists and array satisfy the invariant. */
  lemma FreshSound(f: Forest, tree: seq<int>)
    requires Fresh(f) && |tree| == (if f.next == 0 then 1 else 2 * f.next - 1)
    requires forall id :: 0 <= id < |tree| ==> tree[id] == -1
    ensures Sound(f, tree, []) && Shaped(f)
  {
    FreshForest(f);
    FreshHeavy(f);
    RootsBound(f);
    FreshTree(f, tree);
    hide Labelled, Covered, Paired, Heavy, Refines, Roots, TreeOf, Fresh;
  }

  ghost function Upto(n: nat): (s: set<nat>)
    ensures |s| == n && forall x: nat :: x in s <==> x < n
  {
    if n == 0 then {} else Upto(n - 1) + {n - 1}
  }

  lemma FreshRoots(f: Forest)
    requires Fresh(f)
    ensures |Roots(f)| == |f.rank|
  {
    assert Roots(f) == Upto(|f.rank|);
  }

  /** The fields that the constructor sets. */
  lemma FreshState(n: nat)
    ensures var f := Forest(Repeat(0, n), Parents(Repeat([], n)), Singletons(n), n);
            && Shaped(f) && ChainsOk(f, Repeat([], n))
            && Sound(f, Repeat(-1, if n == 0 then 1 else 2 * n - 1), []) && |Roots(f)| == n
  {
    FreshSound(Forest(Repeat(0, n), Parents(Repeat([], n)), Singletons(n), n),
               Repeat(-1, if n == 0 then 1 else 2 * n - 1));
    FreshRoots(Forest(Repeat(0, n), Parents(Repeat([], n)), Singletons(n), n));
    hide Sound, Shaped, ChainsOk, Parents, Fresh, Roots;
  }

  lemma FreshTree(f: Forest, tree: seq<int>)
    requires Fresh(f) && Shaped(f) && Labelled(f) && f.next <= |tree|
    requires forall id :: 0 <= id < |tree| ==> tree[id] == -1
    ensures TreeOf(f, tree)
  {
    forall x, k, id: nat | Names(f, x, k, id) ensures tree[id] == ParentId(f, x, k) {
      assert k == 0 && id == x;
    }
  }

  lemma RootsBound(f: Forest)
    requires |f.par| == |f.rank|
    ensures |Roots(f)| <= |f.rank|
  {
    Below(Roots(f), |f.rank|);
  }

  /** A set of naturals below n has at most n members. */
  lemma {:induction false} Below(s: set<nat>, n: nat)
    requires forall x :: x in s ==> x < n
    ensures |s| <= n
  {
    if n > 0 {
      Below(s - {n - 1}, n - 1);
    }
  }

  /** One union of separate components keeps the invariant, given the written array. */
  lemma JoinSound(f: Forest, tree: seq<int>, log: seq<Pair>, i: nat, j: nat, lo: nat, other: nat, tree': seq<int>)
    requires Sound(f, tree, log) && Ends(f, i, j, lo, other) && |tree'| == |tree|
    requires Shaped(Join(f, lo, other)) && Labelled(Join(f, lo, other)) && TreeOf(Join(f, lo, other), tree')
    ensures Sound(Join(f, lo, other), tree', log + [(i, j)])
    ensures |Roots(Join(f, lo, other))| == |Roots(f)| - 1
  {
    var g := Join(f, lo, other);
    JoinRefines(f, log, i, j, lo, other);
    JoinRoots(f, lo, other);
    forall r | 0 <= r < |g.rank| && g.par[r] < 0 ensures Pow2(g.rank[r]) <= |Component(g, r)| {
      assert r in Roots(g);
      JoinHeavy(f, lo, other, r);
    }
    JoinCovers(f, lo, other);
  }

  lemma JoinCovers(f: Forest, lo: nat, other: nat)
    requires Joins(f, lo, other) && Labelled(f) && Covered(f) && Paired(f)
    ensures Covered(Join(f, lo, other)) && Paired(Join(f, lo, other))
  {
    if f.rank[lo] < f.rank[Root(f, other)] {
      JoinUnequal(f, lo, other, lo, 0);
      HangPaired(f, lo, Rep(f, other, f.rank[lo] + 1));
    } else {
      EqualPaired(f, lo, Root(f, other));
    }
  }

  /** Two roots leave room for one more id. */
  lemma RoomForOne(f: Forest, tree: seq<int>, log: seq<Pair>, a: nat, b: nat)
    requires Sound(f, tree, log) && a < |f.rank| && b < |f.rank| && a != b && f.par[a] < 0 && f.par[b] < 0
    ensures f.next + 1 < 2 * |f.rank|
  {
    assert {a, b} <= Roots(f);
    assert |Roots(f) - {a, b}| == |Roots(f)| - |{a, b}|;
  }

  ghost function Last(s: seq<nat>): nat
    requires s != []
  {
    s[|s| - 1]
  }

  /** A filled entry of the parent array is never overwritten. */
  ghost predicate WriteOnce(tree: seq<int>, tree': seq<int>) {
    |tree| == |tree'| && forall id :: 0 <= id < |tree| && tree[id] >= 0 ==> tree'[id] == tree[id]
  }

  lemma TopIsOpen(f: Forest, tree: seq<int>, r: nat)
    requires Shaped(f) && Labelled(f) && TreeOf(f, tree) && r < |f.rank| && f.par[r] < 0
    ensures |f.ids[r]| > 0 && Last(f.ids[r]) < |tree| && tree[Last(f.ids[r])] == -1
  {
    assert Names(f, r, f.rank[r], Last(f.ids[r]));
  }

  /** The array after a union of unequal ranks: one more entry. */
  lemma UnequalStep(f: Forest, tree: seq<int>, log: seq<Pair>, i: nat, j: nat, lo: nat, other: nat)
    requires Sound(f, tree, log) && Ends(f, i, j, lo, other) && f.rank[lo] < f.rank[Root(f, other)]
    ensures var p := Rep(f, other, f.rank[lo] + 1);
      && |f.ids| == |f.rank| && lo < |f.rank| && other < |f.rank|
      && |f.ids[lo]| > 0 && Last(f.ids[lo]) < |tree| && f.rank[lo] + 1 < |f.ids[p]|
      && Hangs(f, lo, p) && Joins(f, lo, other) && Join(f, lo, other) == Hang(f, lo, p)
      && Shaped(Join(f, lo, other))
      && var tree' := tree[Last(f.ids[lo]) := f.ids[p][f.rank[lo] + 1]];
      && Sound(Join(f, lo, other), tree', log + [(i, j)]) && WriteOnce(tree, tree')
      && |Roots(Join(f, lo, other))| == |Roots(f)| - 1
  {
    TopIsOpen(f, tree, lo);
    hide Labelled, Covered, Paired, Heavy, Refines, Roots, TreeOf, Root, Rep;
    var p := Rep(f, other, f.rank[lo] + 1);
    JoinUnequal(f, lo, other, lo, 0);
    HangTree(f, tree, lo, p);
    JoinSound(f, tree, log, i, j, lo, other, tree[Last(f.ids[lo]) := f.ids[p][f.rank[lo] + 1]]);
  }

  /** The array after a union of equal ranks: both tops get the fresh id. */
  lemma EqualStep(f: Forest, tree: seq<int>, log: seq<Pair>, i: nat, j: nat, lo: nat, hi: nat)
    requires Sound(f, tree, log) && Ends(f, i, j, lo, i) && hi == Root(f, i) && f.rank[lo] == f.rank[hi]
    ensures |f.ids| == |f.rank| && lo < |f.rank| && hi < |f.rank| && f.par[hi] < 0
    ensures |f.ids[lo]| > 0 && |f.ids[hi]| > 0 && Last(f.ids[lo]) < |tree| && Last(f.ids[hi]) < |tree|
    ensures Hangs(Grow(f, hi), lo, hi) && Joins(f, lo, i) && Join(f, lo, i) == Hang(Grow(f, hi), lo, hi)
    ensures Shaped(Join(f, lo, i))
    ensures var tree' := tree[Last(f.ids[hi]) := f.next][Last(f.ids[lo]) := f.next];
      && Sound(Join(f, lo, i), tree', log + [(i, j)]) && WriteOnce(tree, tree')
      && |Roots(Join(f, lo, i))| == |Roots(f)| - 1
  {
    TopIsOpen(f, tree, lo);
    TopIsOpen(f, tree, hi);
    hide Labelled, Covered, Paired, Heavy, Refines, Roots, TreeOf, Root, Rep;
    RoomForOne(f, tree, log, lo, hi);
    JoinEqual(f, lo, i, lo, 0);
    EqualTree(f, tree, lo, hi);
    JoinSound(f, tree, log, i, j, lo, i, tree[Last(f.ids[hi]) := f.next][Last(f.ids[lo]) := f.next]);
  }

  /** What the two completed chains of a pair tell `union`. */
  lemma UnionCases(f: Forest, tree: seq<int>, log: seq<Pair>, i: nat, j: nat)
    requires Sound(f, tree, log) && i < |f.rank| && j < |f.rank|
    ensures Shaped(f)
    ensures Root(f, i) == Root(f, j) <==> Linked(log, i, j)
    ensures Root(f, i) == Root(f, j) ==> Sound(f, tree, log + [(i, j)])
    ensures Root(f, i) != Root(f, j) && f.rank[Root(f, i)] <= f.rank[Root(f, j)] ==> Ends(f, i, j, Root(f, i), j)
    ensures Root(f, i) != Root(f, j) && f.rank[Root(f, j)] <= f.rank[Root(f, i)] ==> Ends(f, i, j, Root(f, j), i)
  {
    if Root(f, i) == Root(f, j) {
      SkipRefines(f, log, i, j);
    }
  }

  // ------------------------------------------------- what the finished array says

  /** Two leaves climb to one node of the array after k steps exactly when the processed
      pairs make them meet at level k. */
  lemma ArrayIsHierarchy(f: Forest, tree: seq<int>, log: seq<Pair>, x: nat, y: nat, k: nat)
    requires Sound(f, tree, log) && x < |f.rank| && y < |f.rank|
    ensures x < |tree| && y < |tree|
    ensures Climb(tree, x, k) == Climb(tree, y, k) <==> Meet(log, k, x, y)
  {
    ClimbTogether(f, tree, x, y, k);
  }

  /** Every leaf reaches its root in exactly as many steps as its component is high. */
  lemma LeafDepth(f: Forest, tree: seq<int>, log: seq<Pair>, x: nat, k: nat)
    requires Sound(f, tree, log) && x < |f.rank|
    ensures x < |tree| && Climb(tree, x, k) < f.next <= |tree|
    ensures tree[Climb(tree, x, k)] == -1 <==> k >= Height(log, x)
  {
    ClimbIsAncestor(f, tree, x, k);
    RepRoot(f, x, k);
    var r := Rep(f, x, k);
    var l := if k <= f.rank[r] then k else f.rank[r];
    assert Names(f, r, l, f.ids[r][l]);
    assert k < Height(log, x) ==> Names(f, r, l + 1, ParentId(f, r, l)) || f.par[r] >= 0;
  }

  /** A component of height h has at least 2^h leaves, and ids never outgrow the array. */
  lemma HeightIsLogarithmic(f: Forest, tree: seq<int>, log: seq<Pair>, x: nat)
    requires Sound(f, tree, log) && x < |f.rank|
    ensures Pow2(Height(log, x)) <= |set y: nat | y < |f.rank| && Linked(log, x, y)| <= |f.rank|
    ensures f.next <= 2 * |f.rank| - 1
  {
    var r := Root(f, x);
    var c := set y: nat | y < |f.rank| && Linked(log, x, y);
    assert c == Component(f, r);
    Below(c, |f.rank|);
    assert r in Roots(f);
  }

  /** The lowest common ancestor of a merged pair sits one level above the lower of the two
      heights at the time of the merge, whatever pairs come later. */
  lemma LowestCommonAncestor(f: Forest, tree: seq<int>, g: seq<Pair>, i: nat, j: nat, later: seq<Pair>, k: nat)
    requires Sound(f, tree, g + [(i, j)] + later) && !Linked(g, i, j)
    ensures i < |tree| && j < |tree|
    ensures Climb(tree, i, k) == Climb(tree, j, k)
            <==> k > if Height(g, i) <= Height(g, j) then Height(g, i) else Height(g, j)
  {
    var log := g + [(i, j)] + later;
    assert log[|g|] == (i, j);
    ArrayIsHierarchy(f, tree, log, i, j, k);
    PairLinks(g, i, j);
    MeetingIsFinal(g + [(i, j)], later, k, i, j);
    FirstMeeting(g, i, j, k);
  }
}
