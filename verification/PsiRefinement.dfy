/** The forest refines the reference hierarchy of the pairs processed so far. */
module PsiRefinement {
  import opened MergeHierarchy
  import opened PsiForest

  ghost predicate Refines(f: Forest, log: seq<Pair>)
    requires Shaped(f)
  {
    && (forall t :: 0 <= t < |log| ==> log[t].0 < |f.rank| && log[t].1 < |f.rank|)
    && (forall x: nat, y: nat {:trigger Linked(log, x, y)} :: x < |f.rank| && y < |f.rank| ==>
         (Linked(log, x, y) <==> Root(f, x) == Root(f, y)))
    && (forall x: nat {:trigger Height(log, x)} :: x < |f.rank| ==> Height(log, x) == f.rank[Root(f, x)])
    && (forall k: nat, x: nat, y: nat {:trigger Meet(log, k, x, y)} :: x < |f.rank| && y < |f.rank| ==>
         (Meet(log, k, x, y) <==> Rep(f, x, k) == Rep(f, y, k)))
  }

  /** What one more pair does to the reference hierarchy. */
  lemma LogStep(log: seq<Pair>, i: nat, j: nat, k: nat, x: nat, y: nat)
    ensures Linked(log + [(i, j)], x, y)
            <==> (|| Linked(log, x, y)
                  || (Linked(log, x, i) && Linked(log, j, y))
                  || (Linked(log, x, j) && Linked(log, i, y)))
    ensures Meet(log + [(i, j)], k, x, y)
            <==> (|| Meet(log, k, x, y)
                  || (Fuses(log, i, j, k) && Meet(log, k, x, i) && Meet(log, k, j, y))
                  || (Fuses(log, i, j, k) && Meet(log, k, x, j) && Meet(log, k, i, y)))
  {
    var h := log + [(i, j)];
    assert h[|h| - 1] == (i, j) && h[..|h| - 1] == log;
  }

  lemma LogHeight(log: seq<Pair>, i: nat, j: nat, x: nat)
    ensures Height(log + [(i, j)], x)
            == var a, b := Height(log, i), Height(log, j);
               if Linked(log, i, j) || !(Linked(log, x, i) || Linked(log, x, j)) then Height(log, x)
               else if a == b then a + 1
               else if a < b then b else a
  {
    var h := log + [(i, j)];
    assert h[|h| - 1] == (i, j) && h[..|h| - 1] == log;
  }

  /** A pair inside one component changes nothing. */
  lemma SkipRefines(f: Forest, log: seq<Pair>, i: nat, j: nat)
    requires Shaped(f) && Refines(f, log) && i < |f.rank| && j < |f.rank| && Root(f, i) == Root(f, j)
    ensures Refines(f, log + [(i, j)])
  {
    var h := log + [(i, j)];
    assert Linked(log, i, j);
    forall x: nat, y: nat | x < |f.rank| && y < |f.rank| ensures Linked(h, x, y) <==> Root(f, x) == Root(f, y) {
      LogStep(log, i, j, 0, x, y);
    }
    forall x: nat | x < |f.rank| ensures Height(h, x) == f.rank[Root(f, x)] {
      LogHeight(log, i, j, x);
    }
    forall k: nat, x: nat, y: nat | x < |f.rank| && y < |f.rank|
      ensures Meet(h, k, x, y) <==> Rep(f, x, k) == Rep(f, y, k)
    {
      LogStep(log, i, j, k, x, y);
    }
  }

  /** `lo` is the root of one end of the pair, `other` the other end. */
  ghost predicate Ends(f: Forest, i: nat, j: nat, lo: nat, other: nat) {
    && Joins(f, lo, other) && i < |f.rank| && j < |f.rank|
    && ((lo == Root(f, i) && other == j) || (lo == Root(f, j) && other == i))
  }

  lemma JoinLinked(f: Forest, log: seq<Pair>, i: nat, j: nat, lo: nat, other: nat, x: nat, y: nat)
    requires Ends(f, i, j, lo, other) && Refines(f, log) && x < |f.rank| && y < |f.rank|
    ensures Shaped(Join(f, lo, other))
    ensures Linked(log + [(i, j)], x, y) <==> Root(Join(f, lo, other), x) == Root(Join(f, lo, other), y)
  {
    JoinRep(f, lo, other, x, 0);
    JoinRep(f, lo, other, y, 0);
    LogStep(log, i, j, 0, x, y);
  }

  lemma JoinHeight(f: Forest, log: seq<Pair>, i: nat, j: nat, lo: nat, other: nat, x: nat)
    requires Ends(f, i, j, lo, other) && Refines(f, log) && x < |f.rank|
    ensures Shaped(Join(f, lo, other)) && |Join(f, lo, other).rank| == |f.rank|
    ensures Height(log + [(i, j)], x) == Join(f, lo, other).rank[Root(Join(f, lo, other), x)]
  {
    JoinRep(f, lo, other, x, 0);
    LogHeight(log, i, j, x);
  }

  lemma JoinMeet(f: Forest, log: seq<Pair>, i: nat, j: nat, lo: nat, other: nat, k: nat, x: nat, y: nat)
    requires Ends(f, i, j, lo, other) && Refines(f, log) && x < |f.rank| && y < |f.rank|
    ensures Shaped(Join(f, lo, other))
    ensures Meet(log + [(i, j)], k, x, y) <==> Rep(Join(f, lo, other), x, k) == Rep(Join(f, lo, other), y, k)
  {
    JoinRep(f, lo, other, x, k);
    JoinRep(f, lo, other, y, k);
    LogStep(log, i, j, k, x, y);
    RepRoot(f, other, k);
    RepRoot(f, i, k);
    RepRoot(f, j, k);
  }

  /** A union refines the step of the reference hierarchy. */
  lemma JoinRefines(f: Forest, log: seq<Pair>, i: nat, j: nat, lo: nat, other: nat)
    requires Ends(f, i, j, lo, other) && Refines(f, log)
    ensures Shaped(Join(f, lo, other)) && Refines(Join(f, lo, other), log + [(i, j)])
  {
    JoinHeight(f, log, i, j, lo, other, lo);
    var g, h := Join(f, lo, other), log + [(i, j)];
    forall x: nat, y: nat | x < |f.rank| && y < |f.rank| ensures Linked(h, x, y) <==> Root(g, x) == Root(g, y) {
      JoinLinked(f, log, i, j, lo, other, x, y);
    }
    forall x: nat | x < |f.rank| ensures Height(h, x) == g.rank[Root(g, x)] {
      JoinHeight(f, log, i, j, lo, other, x);
    }
    forall k: nat, x: nat, y: nat | x < |f.rank| && y < |f.rank|
      ensures Meet(h, k, x, y) <==> Rep(g, x, k) == Rep(g, y, k)
    {
      JoinMeet(f, log, i, j, lo, other, k, x, y);
    }
  }
}
