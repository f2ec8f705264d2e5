/** The union-find forest behind the Psi merge tree, as a value.

    `par[x]` is the first proper ancestor of leaf x in its parent chain (-1 for a
    representative); `ids[x][k]` is the tree id that x stands for at level k. */
module PsiForest {

  datatype Forest = Forest(rank: seq<nat>, par: seq<int>, ids: seq<seq<nat>>, next: nat)

  /** Chains climb strictly in rank, and ranks are bounded by the merges of equals. */
  ghost predicate Shaped(f: Forest) {
    && |f.par| == |f.rank| && |f.ids| == |f.rank| && |f.rank| <= f.next
    && (forall x {:trigger f.par[x]} :: 0 <= x < |f.rank| ==> -1 <= f.par[x] < |f.rank|)
    && (forall x {:trigger f.rank[x]} :: 0 <= x < |f.rank| ==> f.rank[x] <= f.next - |f.rank|)
    && (forall x {:trigger f.par[x]} :: 0 <= x < |f.rank| && f.par[x] >= 0 ==> f.rank[x] < f.rank[f.par[x]])
  }

  function Repeat<T>(x: T, n: nat): (s: seq<T>)
    ensures |s| == n && forall i :: 0 <= i < n ==> s[i] == x
  {
    seq(n, _ => x)
  }

  function Singletons(n: nat): (s: seq<seq<nat>>)
    ensures |s| == n && forall i :: 0 <= i < n ==> s[i] == [i]
  {
    seq(n, i => [i])
  }

  /** Single leaves, each its own root. */
  ghost predicate Fresh(f: Forest) {
    && |f.par| == |f.rank| == |f.ids| == f.next
    && (forall x :: 0 <= x < |f.rank| ==> f.rank[x] == 0)
    && (forall x :: 0 <= x < |f.rank| ==> f.par[x] == -1)
    && (forall x :: 0 <= x < |f.rank| ==> f.ids[x] == [x])
  }

  ghost function Root(f: Forest, x: nat): (r: nat)
    requires Shaped(f) && x < |f.rank|
    ensures r < |f.rank| && f.par[r] < 0
    decreases f.next - f.rank[x]
  {
    if f.par[x] < 0 then x else Root(f, f.par[x])
  }

  /** The first leaf on the path of x whose rank reaches k; the root if none does. */
  ghost function Rep(f: Forest, x: nat, k: nat): (r: nat)
    requires Shaped(f) && x < |f.rank|
    ensures r < |f.rank| && (f.rank[r] >= k || f.par[r] < 0)
    decreases f.next - f.rank[x]
  {
    if f.rank[x] >= k || f.par[x] < 0 then x else Rep(f, f.par[x], k)
  }

  lemma {:induction false} RepRoot(f: Forest, x: nat, k: nat)
    requires Shaped(f) && x < |f.rank|
    ensures Root(f, Rep(f, x, k)) == Root(f, x)
    ensures Rep(f, Rep(f, x, k), k) == Rep(f, x, k)
    ensures f.rank[x] <= f.rank[Root(f, x)]
    ensures k >= f.rank[Root(f, x)] ==> Rep(f, x, k) == Root(f, x)
    ensures k <= f.rank[Root(f, x)] ==> f.rank[Rep(f, x, k)] >= k
    decreases f.next - f.rank[x]
  {
    if f.par[x] >= 0 {
      RepRoot(f, f.par[x], k);
    }
  }

  lemma {:induction false} RepCompose(f: Forest, x: nat, a: nat, b: nat)
    requires Shaped(f) && x < |f.rank| && a <= b
    ensures Rep(f, Rep(f, x, a), b) == Rep(f, x, b)
    decreases f.next - f.rank[x]
  {
    if f.par[x] >= 0 && f.rank[x] < a {
      RepCompose(f, f.par[x], a, b);
    }
  }

  // ---------------------------------------------------------------- walks

  /** s is x followed by ancestors of x, one parent step at a time. */
  ghost predicate Walk(f: Forest, x: nat, s: seq<nat>) {
    && |f.par| == |f.rank| && |s| > 0 && s[0] == x
    && (forall t {:trigger s[t]} :: 0 <= t < |s| ==> s[t] < |f.rank|)
    && (forall t {:trigger f.par[s[t]]} :: 0 <= t < |s| - 1 ==> f.par[s[t]] == s[t + 1])
  }

  /** A walk that has reached the root. */
  ghost predicate FullWalk(f: Forest, x: nat, s: seq<nat>) {
    Walk(f, x, s) && f.par[s[|s| - 1]] < 0
  }

  lemma {:induction false} WalkClimbs(f: Forest, x: nat, s: seq<nat>, t: nat)
    requires Shaped(f) && Walk(f, x, s) && t < |s|
    ensures Root(f, s[t]) == Root(f, x) && f.rank[s[t]] >= f.rank[x] && (t > 0 ==> f.rank[s[t]] > f.rank[x])
    decreases t
  {
    if t > 0 {
      WalkClimbs(f, x, s, t - 1);
      assert f.par[s[t - 1]] == s[t];
    }
  }

  lemma WalkFrom(f: Forest, x: nat, s: seq<nat>, at: nat)
    requires Walk(f, x, s) && at < |s|
    ensures Walk(f, s[at], s[at..])
    ensures FullWalk(f, x, s) ==> FullWalk(f, s[at], s[at..])
  {
    forall t | 0 <= t < |s[at..]| - 1 ensures f.par[s[at..][t]] == s[at..][t + 1] {
      assert f.par[s[at + t]] == s[at + t + 1];
    }
  }

  lemma WalkPrepend(f: Forest, x: nat, p: nat, s: seq<nat>)
    requires Walk(f, p, s) && x < |f.rank| && f.par[x] == p
    ensures Walk(f, x, [x] + s) && (FullWalk(f, p, s) ==> FullWalk(f, x, [x] + s))
  {
    var w := [x] + s;
    forall t {:trigger f.par[w[t]]} | 0 <= t < |w| - 1 ensures w[t] < |f.rank| && f.par[w[t]] == w[t + 1] {
      if t > 0 {
        assert w[t] == s[t - 1] && f.par[s[t - 1]] == s[t];
      }
    }
    assert w[|w| - 1] == s[|s| - 1];
  }

  /** Leaves of a walk are pairwise distinct. */
  lemma WalkDistinct(f: Forest, x: nat, s: seq<nat>)
    requires Shaped(f) && Walk(f, x, s)
    ensures forall a, b :: 0 <= a < b < |s| ==> s[a] != s[b]
  {
    forall a, b | 0 <= a < b < |s| ensures s[a] != s[b] {
      WalkFrom(f, x, s, a);
      WalkClimbs(f, s[a], s[a..], b - a);
    }
  }

  /** A full walk continues every other walk from the same leaf. */
  lemma {:induction false} WalkPrefix(f: Forest, x: nat, s: seq<nat>, full: seq<nat>, t: nat)
    requires Walk(f, x, s) && FullWalk(f, x, full) && t < |s|
    ensures t < |full| && s[t] == full[t]
    decreases t
  {
    if t > 0 {
      WalkPrefix(f, x, s, full, t - 1);
      assert f.par[s[t - 1]] == s[t];
    }
  }

  /** The first leaf of a walk whose rank exceeds r is the representative at level r + 1. */
  lemma {:induction false} WalkFirstAbove(f: Forest, x: nat, s: seq<nat>, r: nat, at: nat)
    requires Shaped(f) && Walk(f, x, s) && at < |s|
    requires forall t :: 0 <= t < at ==> f.rank[s[t]] <= r
    ensures Rep(f, s[at], r + 1) == Rep(f, x, r + 1)
    decreases at
  {
    if at > 0 {
      WalkFirstAbove(f, x, s, r, at - 1);
      assert f.par[s[at - 1]] == s[at] && f.rank[s[at - 1]] <= r;
    }
  }

  // ---------------------------------------------------------------- union

  /** Representative `lo` becomes a child of `p`. */
  ghost function Hang(f: Forest, lo: nat, p: nat): Forest
    requires lo < |f.par|
  {
    f.(par := f.par[lo := p])
  }

  /** Representative `hi` takes the next tree id as its new top. */
  ghost function Grow(f: Forest, hi: nat): Forest
    requires hi < |f.rank| == |f.ids|
  {
    f.(rank := f.rank[hi := f.rank[hi] + 1], ids := f.ids[hi := f.ids[hi] + [f.next]], next := f.next + 1)
  }

  lemma {:induction false} GrowRep(f: Forest, hi: nat, x: nat, k: nat)
    requires Shaped(f) && hi < |f.rank| && f.par[hi] < 0 && x < |f.rank|
    ensures Shaped(Grow(f, hi))
    ensures Rep(Grow(f, hi), x, k) == Rep(f, x, k) && Root(Grow(f, hi), x) == Root(f, x)
    decreases f.next - f.rank[x]
  {
    if f.par[x] >= 0 {
      GrowRep(f, hi, f.par[x], k);
    }
  }

  ghost predicate Hangs(f: Forest, lo: nat, p: nat) {
    && Shaped(f) && lo < |f.rank| && p < |f.rank|
    && f.par[lo] < 0 && f.rank[lo] < f.rank[p] && Root(f, p) != lo
  }

  lemma {:induction false} HangRoot(f: Forest, lo: nat, p: nat, x: nat)
    requires Hangs(f, lo, p) && x < |f.rank|
    ensures Shaped(Hang(f, lo, p))
    ensures Root(Hang(f, lo, p), x) == if Root(f, x) == lo then Root(f, p) else Root(f, x)
    decreases f.next - f.rank[x]
  {
    if f.par[x] >= 0 {
      HangRoot(f, lo, p, f.par[x]);
    } else if x == lo {
      HangRoot(f, lo, p, p);
    }
  }

  lemma {:induction false} HangRep(f: Forest, lo: nat, p: nat, x: nat, k: nat)
    requires Hangs(f, lo, p) && x < |f.rank| && Shaped(Hang(f, lo, p))
    ensures Rep(Hang(f, lo, p), x, k) == if Rep(f, x, k) == lo && k > f.rank[lo] then Rep(f, p, k) else Rep(f, x, k)
    decreases f.next - f.rank[x]
  {
    if f.par[x] >= 0 {
      HangRep(f, lo, p, f.par[x], k);
    } else if x == lo && k > f.rank[lo] {
      RepRoot(f, p, k);
      RepRoot(f, lo, k);
      HangRep(f, lo, p, p, k);
    }
  }

  /** Representative `lo` joins the component of leaf `other`, whose rank is no lower. */
  ghost predicate Joins(f: Forest, lo: nat, other: nat) {
    && Shaped(f) && lo < |f.rank| && other < |f.rank| && f.par[lo] < 0
    && Root(f, other) != lo && f.rank[lo] <= f.rank[Root(f, other)]
  }

  /** The forest after a union: of equal ranks, the other root grows and becomes the
      parent; otherwise `lo` hangs from the first ancestor of `other` of higher rank. */
  ghost function Join(f: Forest, lo: nat, other: nat): Forest
    requires Joins(f, lo, other)
  {
    if f.rank[lo] < f.rank[Root(f, other)] then Hang(f, lo, Rep(f, other, f.rank[lo] + 1))
    else Hang(Grow(f, Root(f, other)), lo, Root(f, other))
  }

  /** A union at work: representatives change only above the rank of `lo`, and there the
      component of `lo` takes the representative of the other leaf. */
  lemma JoinRep(f: Forest, lo: nat, other: nat, x: nat, k: nat)
    requires Joins(f, lo, other) && x < |f.rank|
    ensures Shaped(Join(f, lo, other))
    ensures Rep(Join(f, lo, other), x, k)
            == if Rep(f, x, k) == lo && k > f.rank[lo] then Rep(f, other, k) else Rep(f, x, k)
    ensures Root(Join(f, lo, other), x) == if Root(f, x) == lo then Root(f, other) else Root(f, x)
  {
    hide Root, Rep;
    if f.rank[lo] < f.rank[Root(f, other)] {
      JoinUnequal(f, lo, other, x, k);
    } else {
      JoinEqual(f, lo, other, x, k);
    }
  }

  lemma JoinUnequal(f: Forest, lo: nat, other: nat, x: nat, k: nat)
    requires Joins(f, lo, other) && x < |f.rank| && f.rank[lo] < f.rank[Root(f, other)]
    ensures var p := Rep(f, other, f.rank[lo] + 1);
      && Hangs(f, lo, p) && Shaped(Hang(f, lo, p)) && Root(f, p) == Root(f, other)
      && Rep(Hang(f, lo, p), x, k)
         == (if Rep(f, x, k) == lo && k > f.rank[lo] then Rep(f, other, k) else Rep(f, x, k))
      && Root(Hang(f, lo, p), x) == if Root(f, x) == lo then Root(f, other) else Root(f, x)
  {
    hide Rep, Root, Hang;
    var p := Rep(f, other, f.rank[lo] + 1);
    RepRoot(f, other, f.rank[lo] + 1);
    HangRoot(f, lo, p, x);
    HangRep(f, lo, p, x, k);
    if k > f.rank[lo] {
      RepCompose(f, other, f.rank[lo] + 1, k);
    }
  }

  lemma JoinEqual(f: Forest, lo: nat, other: nat, x: nat, k: nat)
    requires Joins(f, lo, other) && x < |f.rank| && f.rank[lo] == f.rank[Root(f, other)]
    ensures var hi := Root(f, other); var g := Hang(Grow(f, hi), lo, hi);
      && Hangs(Grow(f, hi), lo, hi) && Shaped(g)
      && Rep(g, x, k) == (if Rep(f, x, k) == lo && k > f.rank[lo] then Rep(f, other, k) else Rep(f, x, k))
      && Root(g, x) == if Root(f, x) == lo then Root(f, other) else Root(f, x)
  {
    var hi := Root(f, other);
    GrowRep(f, hi, x, k);
    GrowRep(f, hi, hi, k);
    HangRoot(Grow(f, hi), lo, hi, x);
    HangRep(Grow(f, hi), lo, hi, x, k);
    if k > f.rank[lo] {
      RepRoot(f, other, k);
    }
  }
}
