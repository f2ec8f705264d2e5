/** The compact parent array that a forest determines, and what unions do to it. */
module PsiTree {
  import opened PsiForest

  /** Tree ids: one per leaf and level up to its rank, all below `next`, none shared. */
  ghost predicate Labelled(f: Forest) {
    && |f.ids| == |f.rank|
    && (forall x {:trigger f.ids[x]} :: 0 <= x < |f.rank| ==> |f.ids[x]| == f.rank[x] + 1 && f.ids[x][0] == x)
    && (forall x, k, id: nat :: Names(f, x, k, id) ==> id < f.next)
    && (forall x, k, y, l, id: nat :: Names(f, x, k, id) && Names(f, y, l, id) ==> x == y && k == l)
  }

  /** Every id below `next` is in use. */
  ghost predicate Covered(f: Forest) {
    forall id :: 0 <= id < f.next ==> Named(f, id)
  }

  ghost predicate Named(f: Forest, id: nat) {
    exists x, k :: Names(f, x, k, id)
  }

  ghost predicate Names(f: Forest, x: nat, k: nat, id: nat) {
    x < |f.ids| && k < |f.ids[x]| && f.ids[x][k] == id
  }

  /** Whenever x reached a rank k > 0 it absorbed a representative of rank k - 1. */
  ghost predicate Paired(f: Forest) {
    forall x, k :: 0 <= x < |f.rank| && 0 < k <= f.rank[x] ==> HasPartner(f, x, k)
  }

  ghost predicate HasPartner(f: Forest, x: nat, k: nat) {
    exists y :: Partner(f, x, k, y)
  }

  ghost predicate Partner(f: Forest, x: nat, k: nat, y: nat) {
    y < |f.rank| && y < |f.par| && f.par[y] == x && f.rank[y] + 1 == k
  }

  /** The tree parent of the id of x at level k: one level up in the same leaf, or the
      entry of the parent leaf one level up, or none at a root. */
  ghost function ParentId(f: Forest, x: nat, k: nat): int
    requires Shaped(f) && Labelled(f) && x < |f.rank| && k < |f.ids[x]|
  {
    if k < f.rank[x] then f.ids[x][k + 1]
    else if f.par[x] < 0 then -1
    else f.ids[f.par[x]][f.rank[x] + 1]
  }

  ghost predicate TreeOf(f: Forest, tree: seq<int>)
    requires Shaped(f) && Labelled(f)
  {
    && f.next <= |tree|
    && (forall x, k, id: nat :: Names(f, x, k, id) ==> tree[id] == ParentId(f, x, k))
    && (forall id :: f.next <= id < |tree| ==> tree[id] == -1)
  }

  /** k steps up the parent array, staying at a root. */
  ghost function Climb(tree: seq<int>, id: nat, k: nat): (a: nat)
    requires id < |tree|
    ensures k == 0 ==> a == id
  {
    if k == 0 then id else
    var b := Climb(tree, id, k - 1);
    if b < |tree| && tree[b] >= 0 then tree[b] else b
  }

  /** The ancestor of a leaf at level k, or its root when the component is lower. */
  ghost function Ancestor(f: Forest, x: nat, k: nat): nat
    requires Shaped(f) && Labelled(f) && x < |f.rank|
  {
    var r := Rep(f, x, k);
    f.ids[r][if k <= f.rank[r] then k else f.rank[r]]
  }

  /** Climbing the array k times from a leaf reaches its level-k ancestor. */
  lemma {:induction false} ClimbIsAncestor(f: Forest, tree: seq<int>, x: nat, k: nat)
    requires Shaped(f) && Labelled(f) && TreeOf(f, tree) && x < |f.rank| && x < |tree|
    ensures Climb(tree, x, k) == Ancestor(f, x, k)
    decreases k
  {
    if k > 0 {
      ClimbIsAncestor(f, tree, x, k - 1);
      RepCompose(f, x, k - 1, k);
      var r := Rep(f, x, k - 1);
      var l := if k - 1 <= f.rank[r] then k - 1 else f.rank[r];
      assert Names(f, r, l, f.ids[r][l]);
    }
  }

  /** Two leaves climb to the same node exactly when their representatives agree. */
  lemma ClimbTogether(f: Forest, tree: seq<int>, x: nat, y: nat, k: nat)
    requires Shaped(f) && Labelled(f) && TreeOf(f, tree) && x < |f.rank| && y < |f.rank|
    requires x < |tree| && y < |tree|
    ensures Climb(tree, x, k) == Climb(tree, y, k) <==> Rep(f, x, k) == Rep(f, y, k)
  {
    ClimbIsAncestor(f, tree, x, k);
    ClimbIsAncestor(f, tree, y, k);
    var r, q := Rep(f, x, k), Rep(f, y, k);
    assert Names(f, r, if k <= f.rank[r] then k else f.rank[r], Ancestor(f, x, k));
    assert Names(f, q, if k <= f.rank[q] then k else f.rank[q], Ancestor(f, y, k));
  }

  // ------------------------------------------------- unions keep the array in step

  lemma HangTree(f: Forest, tree: seq<int>, lo: nat, p: nat)
    requires Hangs(f, lo, p) && Labelled(f) && TreeOf(f, tree)
    ensures var g := Hang(f, lo, p);
      && Shaped(g) && Labelled(g) && f.ids[lo][f.rank[lo]] < |tree|
      && TreeOf(g, tree[f.ids[lo][f.rank[lo]] := f.ids[p][f.rank[lo] + 1]])
  {
    var g := Hang(f, lo, p);
    HangRoot(f, lo, p, lo);
    HangLabelled(f, lo, p);
    var top := f.ids[lo][f.rank[lo]];
    assert Names(f, lo, f.rank[lo], top);
    forall x, k, id: nat | Names(g, x, k, id)
      ensures tree[top := f.ids[p][f.rank[lo] + 1]][id] == ParentId(g, x, k)
    {
      assert Names(f, x, k, id);
    }
  }

  lemma HangLabelled(f: Forest, lo: nat, p: nat)
    requires Hangs(f, lo, p) && Labelled(f)
    ensures Labelled(Hang(f, lo, p))
  {
    var g := Hang(f, lo, p);
    forall x, k, id: nat | Names(g, x, k, id) ensures Names(f, x, k, id) { }
  }

  lemma HangPaired(f: Forest, lo: nat, p: nat)
    requires Hangs(f, lo, p) && Covered(f)
    ensures Covered(Hang(f, lo, p))
    ensures Paired(f) ==> Paired(Hang(f, lo, p))
  {
    var g := Hang(f, lo, p);
    forall id | 0 <= id < g.next ensures Named(g, id) {
      assert Named(f, id);
      var x, k :| Names(f, x, k, id);
      assert Names(g, x, k, id);
    }
    if Paired(f) {
      forall x, k | 0 <= x < |g.rank| && 0 < k <= g.rank[x] ensures HasPartner(g, x, k) {
        assert HasPartner(f, x, k);
        var y :| Partner(f, x, k, y);
        assert Partner(g, x, k, y);
      }
    }
  }

  lemma GrowLabelled(f: Forest, hi: nat)
    requires Shaped(f) && Labelled(f) && hi < |f.rank| && f.par[hi] < 0
    ensures Shaped(Grow(f, hi)) && Labelled(Grow(f, hi))
  {
    GrowRep(f, hi, hi, 0);
    var g := Grow(f, hi);
    forall x, k, id: nat | Names(g, x, k, id)
      ensures if x == hi && k == f.rank[hi] + 1 then id == f.next else Names(f, x, k, id)
    {
    }
    forall x, k, y, l, id: nat | Names(g, x, k, id) && Names(g, y, l, id) ensures x == y && k == l { }
  }

  /** A union of equals writes the fresh id over both old tops. */
  lemma EqualTree(f: Forest, tree: seq<int>, lo: nat, hi: nat)
    requires Shaped(f) && Labelled(f) && TreeOf(f, tree) && f.next < |tree|
    requires lo < |f.rank| && hi < |f.rank| && lo != hi
    requires f.par[lo] < 0 && f.par[hi] < 0 && f.rank[lo] == f.rank[hi]
    ensures var g := Hang(Grow(f, hi), lo, hi);
      && Shaped(g) && Labelled(g) && f.ids[lo][f.rank[lo]] < |tree| && f.ids[hi][f.rank[hi]] < |tree|
      && TreeOf(g, tree[f.ids[hi][f.rank[hi]] := f.next][f.ids[lo][f.rank[lo]] := f.next])
  {
    var h := Grow(f, hi);
    var g := Hang(h, lo, hi);
    GrowLabelled(f, hi);
    GrowRep(f, hi, hi, 0);
    HangRoot(h, lo, hi, lo);
    HangLabelled(h, lo, hi);
    var a, b := f.ids[hi][f.rank[hi]], f.ids[lo][f.rank[lo]];
    assert Names(f, hi, f.rank[hi], a) && Names(f, lo, f.rank[lo], b);
    var tree' := tree[a := f.next][b := f.next];
    forall x, k, id: nat | Names(g, x, k, id) ensures tree'[id] == ParentId(g, x, k) {
      assert x != hi || k <= f.rank[hi] ==> Names(f, x, k, id);
    }
  }

  lemma EqualPaired(f: Forest, lo: nat, hi: nat)
    requires Shaped(f) && Labelled(f) && Covered(f) && Paired(f)
    requires lo < |f.rank| && hi < |f.rank| && lo != hi
    requires f.par[lo] < 0 && f.par[hi] < 0 && f.rank[lo] == f.rank[hi]
    ensures Covered(Hang(Grow(f, hi), lo, hi)) && Paired(Hang(Grow(f, hi), lo, hi))
  {
    var g := Hang(Grow(f, hi), lo, hi);
    forall id | 0 <= id < g.next ensures Named(g, id) {
      if id == f.next {
        assert Names(g, hi, f.rank[hi] + 1, id);
      } else {
        assert Named(f, id);
        var x, k :| Names(f, x, k, id);
        assert Names(g, x, k, id);
      }
    }
    forall x, k | 0 <= x < |g.rank| && 0 < k <= g.rank[x] ensures HasPartner(g, x, k) {
      if x == hi && k == g.rank[hi] {
        assert Partner(g, x, k, lo);
      } else {
        assert HasPartner(f, x, k);
        var y :| Partner(f, x, k, y);
        assert Partner(g, x, k, y);
      }
    }
  }

  // ------------------------------------------------- sizes

  ghost function Pow2(k: nat): (p: nat)
    ensures p > 0
  {
    if k == 0 then 1 else 2 * Pow2(k - 1)
  }

  ghost function Component(f: Forest, r: nat): set<nat>
    requires Shaped(f)
  {
    set x: nat | x < |f.rank| && Root(f, x) == r
  }

  ghost function Roots(f: Forest): set<nat> {
    set x: nat | x < |f.par| && f.par[x] < 0
  }

  /** A component of rank k has at least 2^k leaves. */
  ghost predicate Heavy(f: Forest)
    requires Shaped(f)
  {
    forall r {:trigger Component(f, r)} :: 0 <= r < |f.rank| && f.par[r] < 0 ==> Pow2(f.rank[r]) <= |Component(f, r)|
  }

  lemma JoinComponent(f: Forest, lo: nat, other: nat, r: nat)
    requires Joins(f, lo, other)
    ensures Shaped(Join(f, lo, other))
    ensures r == Root(f, other) ==> Component(Join(f, lo, other), r) == Component(f, r) + Component(f, lo)
    ensures r != lo && r != Root(f, other) ==> Component(Join(f, lo, other), r) == Component(f, r)
  {
    JoinRep(f, lo, other, lo, 0);
    forall x: nat | x < |f.rank|
      ensures Root(Join(f, lo, other), x) == if Root(f, x) == lo then Root(f, other) else Root(f, x)
    {
      JoinRep(f, lo, other, x, 0);
    }
  }

  lemma JoinRoots(f: Forest, lo: nat, other: nat)
    requires Joins(f, lo, other)
    ensures Roots(Join(f, lo, other)) == Roots(f) - {lo} && lo in Roots(f) && Root(f, other) in Roots(f)
  {
  }

  lemma JoinRank(f: Forest, lo: nat, other: nat, r: nat)
    requires Joins(f, lo, other) && r < |f.rank|
    ensures |Join(f, lo, other).rank| == |f.rank|
    ensures Join(f, lo, other).rank[r]
            == if r == Root(f, other) && f.rank[lo] == f.rank[r] then f.rank[r] + 1 else f.rank[r]
  {
  }

  lemma ComponentsApart(f: Forest, a: nat, b: nat)
    requires Shaped(f) && a != b
    ensures |Component(f, a) + Component(f, b)| == |Component(f, a)| + |Component(f, b)|
  {
    assert Component(f, a) !! Component(f, b);
  }

  lemma JoinHeavy(f: Forest, lo: nat, other: nat, r: nat)
    requires Joins(f, lo, other) && Heavy(f) && r in Roots(f) && r != lo
    ensures Shaped(Join(f, lo, other)) && |Join(f, lo, other).rank| == |f.rank|
    ensures Pow2(Join(f, lo, other).rank[r]) <= |Component(Join(f, lo, other), r)|
  {
    JoinComponent(f, lo, other, r);
    JoinRank(f, lo, other, r);
    assert Pow2(f.rank[r]) <= |Component(f, r)|;
    if r == Root(f, other) {
      ComponentsApart(f, r, lo);
      assert Pow2(f.rank[lo]) <= |Component(f, lo)|;
    }
  }
}
