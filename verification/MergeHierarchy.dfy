/** What a list of ranked leaf pairs means, told without any data structure.

    Processing a pair (i, j) joins the components of i and j.  Joining components of
    heights a and b fuses, at every level above min(a, b), the class of i with the class
    of j and leaves all lower levels alone.  `PsiForest` and `PsiUnionFind` are proved
    against this model. */
module MergeHierarchy {

  type Pair = (nat, nat)

  type Rel = (nat, nat) -> bool

  /** `r` with the class of i fused with the class of j. */
  predicate Fused(r: Rel, i: nat, j: nat, x: nat, y: nat) {
    r(x, y) || (r(x, i) && r(j, y)) || (r(x, j) && r(i, y))
  }

  ghost predicate Equivalence(r: Rel) {
    && (forall x :: r(x, x))
    && (forall x, y :: r(x, y) ==> r(y, x))
    && (forall x, y, z :: r(x, y) && r(y, z) ==> r(x, z))
  }

  /** x and y lie in one component after the pairs of `log` (plain union-find). */
  ghost predicate Linked(log: seq<Pair>, x: nat, y: nat) {
    Components(log)(x, y)
  }

  ghost function Components(log: seq<Pair>): Rel
    decreases |log|
  {
    if log == [] then (x: nat, y: nat) => x == y else
    var (i, j) := log[|log| - 1];
    var r := Components(log[..|log| - 1]);
    (x: nat, y: nat) => Fused(r, i, j, x, y)
  }

  /** The height of the component of x. */
  ghost function Height(log: seq<Pair>, x: nat): nat
    decreases |log|
  {
    if log == [] then 0 else
    var (i, j) := log[|log| - 1];
    var g := log[..|log| - 1];
    var a, b := Height(g, i), Height(g, j);
    if Linked(g, i, j) || !(Linked(g, x, i) || Linked(g, x, j)) then Height(g, x)
    else if a == b then a + 1
    else if a < b then b else a
  }

  /** x and y have the same ancestor at level k. */
  ghost predicate Meet(log: seq<Pair>, k: nat, x: nat, y: nat) {
    Classes(log, k)(x, y)
  }

  ghost function Classes(log: seq<Pair>, k: nat): Rel
    decreases |log|
  {
    if log == [] then (x: nat, y: nat) => x == y else
    var (i, j) := log[|log| - 1];
    var g := log[..|log| - 1];
    var r := Classes(g, k);
    if Fuses(g, i, j, k) then (x: nat, y: nat) => Fused(r, i, j, x, y) else r
  }

  /** The pair (i, j), coming after `g`, has an effect at level k. */
  ghost predicate Fuses(g: seq<Pair>, i: nat, j: nat, k: nat)
  {
    !Linked(g, i, j) && k > if Height(g, i) <= Height(g, j) then Height(g, i) else Height(g, j)
  }

  lemma FusedIsEquivalence(r: Rel, i: nat, j: nat)
    requires Equivalence(r)
    ensures Equivalence((x: nat, y: nat) => Fused(r, i, j, x, y))
  {
  }

  lemma {:induction false} LinkedIsEquivalence(log: seq<Pair>)
    ensures Equivalence(Components(log))
    decreases |log|
  {
    if log != [] {
      var (i, j) := log[|log| - 1];
      LinkedIsEquivalence(log[..|log| - 1]);
      FusedIsEquivalence(Components(log[..|log| - 1]), i, j);
    }
  }

  lemma {:induction false} MeetIsEquivalence(log: seq<Pair>, k: nat)
    ensures Equivalence(Classes(log, k))
    decreases |log|
  {
    if log != [] {
      var (i, j) := log[|log| - 1];
      MeetIsEquivalence(log[..|log| - 1], k);
      FusedIsEquivalence(Classes(log[..|log| - 1], k), i, j);
    }
  }

  /** Leaves that meet at some level are in one component. */
  lemma {:induction false} MeetImpliesLinked(log: seq<Pair>, k: nat, x: nat, y: nat)
    requires Meet(log, k, x, y)
    ensures Linked(log, x, y)
    decreases |log|
  {
    if log != [] {
      var (i, j) := log[|log| - 1];
      var g := log[..|log| - 1];
      LinkedIsEquivalence(g);
      if Meet(g, k, x, y) {
        MeetImpliesLinked(g, k, x, y);
      } else if Meet(g, k, x, i) && Meet(g, k, j, y) {
        MeetImpliesLinked(g, k, x, i);
        MeetImpliesLinked(g, k, j, y);
      } else {
        MeetImpliesLinked(g, k, x, j);
        MeetImpliesLinked(g, k, i, y);
      }
    }
  }

  /** Members of one component agree on its height. */
  lemma {:induction false} HeightOfComponent(log: seq<Pair>, x: nat, y: nat)
    requires Linked(log, x, y)
    ensures Height(log, x) == Height(log, y)
    decreases |log|
  {
    if log != [] {
      var (i, j) := log[|log| - 1];
      var g := log[..|log| - 1];
      LinkedIsEquivalence(g);
      if Linked(g, x, y) {
        HeightOfComponent(g, x, y);
      }
    }
  }

  /** At and above the height of a component all its leaves have met: the root. */
  lemma {:induction false} AllMeetAtHeight(log: seq<Pair>, k: nat, x: nat, y: nat)
    requires Linked(log, x, y) && k >= Height(log, x)
    ensures Meet(log, k, x, y)
    decreases |log|
  {
    if log != [] {
      var (i, j) := log[|log| - 1];
      var g := log[..|log| - 1];
      LinkedIsEquivalence(g);
      MeetIsEquivalence(g, k);
      HeightGrows(log, x);
      if Linked(g, x, y) {
        AllMeetAtHeight(g, k, x, y);
      } else if Linked(g, x, i) {
        HeightOfComponent(g, x, i);
        AllMeetAtHeight(g, k, x, i);
        HeightOfComponent(g, j, y);
        AllMeetAtHeight(g, k, j, y);
      } else {
        HeightOfComponent(g, x, j);
        AllMeetAtHeight(g, k, x, j);
        HeightOfComponent(g, i, y);
        AllMeetAtHeight(g, k, i, y);
      }
    }
  }

  lemma HeightGrows(log: seq<Pair>, x: nat)
    requires log != []
    ensures Height(log, x) >= Height(log[..|log| - 1], x)
  {
    var (i, j) := log[|log| - 1];
    var g := log[..|log| - 1];
    LinkedIsEquivalence(g);
    if Linked(g, x, i) {
      HeightOfComponent(g, x, i);
    } else if Linked(g, x, j) {
      HeightOfComponent(g, x, j);
    }
  }

  lemma PairLinks(g: seq<Pair>, i: nat, j: nat)
    ensures Linked(g + [(i, j)], i, j)
  {
    var log := g + [(i, j)];
    assert log[..|log| - 1] == g && log[|log| - 1] == (i, j);
    LinkedIsEquivalence(g);
  }

  /** The first meeting level of a freshly joined pair is one above the lower height. */
  lemma {:induction false} FirstMeeting(g: seq<Pair>, i: nat, j: nat, k: nat)
    requires !Linked(g, i, j)
    ensures var m := if Height(g, i) <= Height(g, j) then Height(g, i) else Height(g, j);
            Meet(g + [(i, j)], k, i, j) <==> k > m
  {
    var log := g + [(i, j)];
    assert log[..|log| - 1] == g && log[|log| - 1] == (i, j);
    MeetIsEquivalence(g, k);
    if Meet(g, k, i, j) { MeetImpliesLinked(g, k, i, j); }
  }

  /** Once two leaves are in one component, no later pair changes where they meet. */
  lemma {:induction false} MeetingIsFinal(g: seq<Pair>, later: seq<Pair>, k: nat, x: nat, y: nat)
    requires Linked(g, x, y)
    ensures Linked(g + later, x, y)
    ensures Meet(g + later, k, x, y) <==> Meet(g, k, x, y)
    decreases |later|
  {
    if later == [] {
      assert g + later == g;
    } else {
      var init := later[..|later| - 1];
      var (i, j) := later[|later| - 1];
      var log := g + later;
      assert log[..|log| - 1] == g + init && log[|log| - 1] == (i, j);
      MeetingIsFinal(g, init, k, x, y);
      var h := g + init;
      LinkedIsEquivalence(h);
      if Meet(h, k, x, i) && Meet(h, k, j, y) {
        MeetImpliesLinked(h, k, x, i);
        MeetImpliesLinked(h, k, j, y);
      }
      if Meet(h, k, x, j) && Meet(h, k, i, y) {
        MeetImpliesLinked(h, k, x, j);
        MeetImpliesLinked(h, k, i, y);
      }
    }
  }
}
