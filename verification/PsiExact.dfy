/** `_build_exact_psi_structure`: ranked pairs to a tree of nodes. */
module PsiExact {
  import opened MergeHierarchy
  import opened PsiForest
  import opened PsiTree
  import opened PsiInvariant
  import TS = PsiTreeShape

  // ------------------------------------------------- the finished array as a levelled forest

  ghost function LevelOf(f: Forest, id: nat): nat {
    if Named(f, id) then (var x: nat, k: nat :| Names(f, x, k, id); k) else 0
  }

  ghost function Levels(f: Forest): (lev: seq<nat>)
    ensures |lev| == f.next && forall id: nat :: id < f.next ==> lev[id] == LevelOf(f, id)
  {
    seq(f.next, (id: nat) => LevelOf(f, id))
  }

  /** Edges of the array climb one level. */
  lemma EdgeClimbs(f: Forest, tree: seq<int>, log: seq<Pair>, c: nat)
    requires Sound(f, tree, log) && c < f.next && tree[c] >= 0
    ensures tree[c] < f.next && LevelOf(f, tree[c]) == LevelOf(f, c) + 1
  {
    assert Named(f, c);
    var x: nat, k: nat :| Names(f, x, k, c);
    if k < f.rank[x] {
      assert Names(f, x, k + 1, tree[c]);
    } else {
      assert Names(f, f.par[x], k + 1, tree[c]);
    }
  }

  lemma LeafLevels(f: Forest, tree: seq<int>, log: seq<Pair>, id: nat)
    requires Sound(f, tree, log) && id < f.next
    ensures LevelOf(f, id) == 0 <==> id < |f.rank|
  {
    assert Named(f, id);
    var x: nat, k: nat :| Names(f, x, k, id);
    if id < |f.rank| {
      assert Names(f, id, 0, id);
    }
  }

  /** Every id above the leaves was made from two. */
  lemma TwoKids(f: Forest, tree: seq<int>, log: seq<Pair>, id: nat)
    requires Sound(f, tree, log) && |f.rank| <= id < f.next
    ensures |TS.Kids(tree[..f.next], id)| >= 2
  {
    LeafLevels(f, tree, log, id);
    assert Named(f, id);
    var x: nat, k: nat :| Names(f, x, k, id);
    assert HasPartner(f, x, k);
    var y: nat :| Partner(f, x, k, y);
    var a, b := f.ids[x][k - 1], f.ids[y][k - 1];
    assert Names(f, x, k - 1, a) && Names(f, y, k - 1, b);
    assert y != x;
    var t := tree[..f.next];
    assert t[a] == id && t[b] == id;
    assert a in TS.Kids(t, id) && b in TS.Kids(t, id);
  }

  lemma SoundIsLevelled(f: Forest, tree: seq<int>, log: seq<Pair>)
    requires Sound(f, tree, log)
    ensures f.next <= |tree| && TS.Levelled(tree[..f.next], |f.rank|, Levels(f))
  {
    var t := tree[..f.next];
    forall id | 0 <= id < f.next ensures LevelOf(f, id) == 0 <==> id < |f.rank| {
      LeafLevels(f, tree, log, id);
    }
    forall c {:trigger t[c]} | 0 <= c < |t| && t[c] >= 0 ensures t[c] < |t| && Levels(f)[t[c]] == Levels(f)[c] + 1 {
      EdgeClimbs(f, tree, log, c);
    }
    forall id {:trigger TS.Kids(t, id)} | |f.rank| <= id < |t| ensures |TS.Kids(t, id)| >= 2 {
      TwoKids(f, tree, log, id);
    }
  }

  // ------------------------------------------------- one root

  ghost function RootId(f: Forest, r: nat): nat
    requires Labelled(f) && r < |f.rank|
  {
    f.ids[r][f.rank[r]]
  }

  /** With one representative left, its top is the only open entry and lies above every leaf. */
  lemma OneRoot(f: Forest, tree: seq<int>, log: seq<Pair>, r: nat)
    requires Sound(f, tree, log) && Roots(f) == {r}
    ensures r < |f.rank| && f.next <= |tree| && RootId(f, r) < f.next && LevelOf(f, RootId(f, r)) == f.rank[r]
    ensures forall id :: 0 <= id < f.next ==> (tree[id] == -1 <==> id == RootId(f, r))
    ensures forall x :: 0 <= x < |f.rank| ==> Root(f, x) == r
  {
    assert r in Roots(f);
    assert Names(f, r, f.rank[r], RootId(f, r));
    forall id | 0 <= id < f.next ensures tree[id] == -1 <==> id == RootId(f, r) {
      assert Named(f, id);
      var x: nat, k: nat :| Names(f, x, k, id);
      if k >= f.rank[x] && f.par[x] < 0 {
        assert x in Roots(f);
      }
    }
    forall x | 0 <= x < |f.rank| ensures Root(f, x) == r {
      assert Root(f, x) in Roots(f);
    }
  }

  /** Leaves climb to the root in exactly rank-many steps of the cut array. */
  lemma {:induction false} UpIsClimb(tree: seq<int>, m: nat, x: nat, k: nat)
    requires m <= |tree| && x < m && TS.Up(tree[..m], x, k) >= 0
    ensures TS.Up(tree[..m], x, k) == Climb(tree, x, k)
    decreases k
  {
    if k > 0 {
      UpIsClimb(tree, m, x, k - 1);
    }
  }

  /** Every leaf lies h steps below the root, h the rank of the last representative. */
  lemma LeavesUnderRoot(f: Forest, tree: seq<int>, log: seq<Pair>, r: nat, x: nat)
    requires Sound(f, tree, log) && Roots(f) == {r} && x < |f.rank|
    ensures f.next <= |tree| && r < |f.rank| && TS.Up(tree[..f.next], x, f.rank[r]) == RootId(f, r)
  {
    OneRoot(f, tree, log, r);
    UpAlive(f, tree, log, x, f.rank[r]);
    UpIsClimb(tree, f.next, x, f.rank[r]);
    ClimbIsAncestor(f, tree, x, f.rank[r]);
    RepRoot(f, x, f.rank[r]);
  }

  lemma {:induction false} UpAlive(f: Forest, tree: seq<int>, log: seq<Pair>, x: nat, k: nat)
    requires Sound(f, tree, log) && x < |f.rank| && k <= Height(log, x)
    ensures f.next <= |tree| && TS.Up(tree[..f.next], x, k) >= 0
    decreases k
  {
    if k > 0 {
      UpAlive(f, tree, log, x, k - 1);
      UpIsClimb(tree, f.next, x, k - 1);
      LeafDepth(f, tree, log, x, k - 1);
      LeafDepth(f, tree, log, x, k);
      EdgeInRange(f, tree, log, Climb(tree, x, k - 1));
    }
  }

  lemma EdgeInRange(f: Forest, tree: seq<int>, log: seq<Pair>, c: nat)
    requires Sound(f, tree, log) && c < f.next
    ensures f.next <= |tree| && -1 <= tree[c] < f.next
  {
    assert Named(f, c);
    var x: nat, k: nat :| Names(f, x, k, c);
    if tree[c] >= 0 {
      EdgeClimbs(f, tree, log, c);
    }
  }

  /** The leaves below the root entry, each exactly once. */
  lemma RootCovers(f: Forest, tree: seq<int>, log: seq<Pair>, r: nat)
    requires Sound(f, tree, log) && Roots(f) == {r}
    ensures f.next <= |tree| && r < |f.rank| && |f.ids| == |f.rank| && |f.ids[r]| == f.rank[r] + 1
    ensures var b := TS.Below(tree[..f.next], RootId(f, r), f.rank[r]);
            TS.NoRepeat(b) && forall x: nat :: x in b <==> x < |f.rank|
  {
    OneRoot(f, tree, log, r);
    SoundIsLevelled(f, tree, log);
    var t, id, h := tree[..f.next], RootId(f, r), f.rank[r];
    TS.BelowNoRepeat(t, id, h);
    TS.BelowAreLeaves(t, |f.rank|, Levels(f), id, h);
    forall x: nat ensures x in TS.Below(t, id, h) <==> x < |f.rank| {
      TS.BelowIsUp(t, id, h, x);
      if x < |f.rank| {
        LeavesUnderRoot(f, tree, log, r, x);
      }
    }
  }
}
