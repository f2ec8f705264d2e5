/** The lazily extended parent chains of the union-find. */
module PsiChains {
  import opened PsiForest

  // ------------------------------------------------- ordered extension

  ghost function Extended(target: seq<nat>, values: seq<nat>): seq<nat>
    decreases |values|
  {
    if values == [] then target
    else Extended(if values[0] in target then target else target + [values[0]], values[1..])
  }

  ghost predicate Distinct(s: seq<nat>) {
    forall a, b :: 0 <= a < b < |s| ==> s[a] != s[b]
  }

  /** Extending a head and a first part of V by all of V completes V. */
  lemma {:induction false} ExtendPrefix(head: seq<nat>, values: seq<nat>, m: nat, done: nat)
    requires Distinct(values) && done <= |values| && m <= |values|
    requires forall h :: h in head ==> h !in values
    ensures Extended(head + values[..if m < done then done else m], values[done..]) == head + values
    decreases |values| - done
  {
    var at := if m < done then done else m;
    var target, rest := head + values[..at], values[done..];
    if done == |values| {
      assert values[..at] == values;
    } else {
      assert rest[0] == values[done] && rest[1..] == values[done + 1..];
      if done < m {
        assert target[|head| + done] == values[done];
      } else {
        assert values[done] !in values[..done];
        assert target + [values[done]] == head + values[..done + 1];
      }
      ExtendPrefix(head, values, m, done + 1);
    }
  }

  method OrderedExtend(target: seq<nat>, values: seq<nat>) returns (extended: seq<nat>)
    ensures extended == Extended(target, values)
  {
    extended := target;
    for v := 0 to |values|
      invariant Extended(extended, values[v..]) == Extended(target, values)
    {
      assert values[v..][0] == values[v] && values[v..][1..] == values[v + 1..];
      if values[v] !in extended {
        extended := extended + [values[v]];
      }
    }
  }

  // ------------------------------------------------- chains

  ghost function ParentOf(chain: seq<nat>, x: nat): int {
    if chain == [] then -1
    else if chain[0] != x then chain[0]
    else if |chain| == 1 then -1
    else chain[1]
  }

  ghost function Parents(chains: seq<seq<nat>>): (par: seq<int>)
    ensures |par| == |chains| && forall x :: 0 <= x < |chains| ==> par[x] == ParentOf(chains[x], x)
  {
    seq(|chains|, x requires 0 <= x < |chains| => ParentOf(chains[x], x))
  }

  /** A chain as a walk from its leaf: leaves that have had rank lead their own chain, all
      others leave themselves out of it. */
  ghost function Line(f: Forest, x: nat, chain: seq<nat>): seq<nat>
    requires x < |f.rank|
  {
    if f.rank[x] > 0 then chain else [x] + chain
  }

  /** The chain of x is a walk that knows at least the parent of x, if there is one. */
  ghost predicate ChainOk(f: Forest, x: nat, chain: seq<nat>)
    requires x < |f.rank|
  {
    Walk(f, x, Line(f, x, chain)) && (f.par[x] >= 0 ==> |Line(f, x, chain)| >= 2)
  }

  ghost predicate ChainFull(f: Forest, x: nat, chain: seq<nat>)
    requires x < |f.rank|
  {
    FullWalk(f, x, Line(f, x, chain))
  }

  ghost predicate ChainsOk(f: Forest, chains: seq<seq<nat>>) {
    |chains| == |f.rank| && forall x :: 0 <= x < |chains| ==> ChainOk(f, x, chains[x])
  }

  /** Full chains have not become partial. */
  ghost predicate KeepsFull(f: Forest, chains: seq<seq<nat>>, chains': seq<seq<nat>>) {
    && |chains| == |f.rank| && |chains'| == |f.rank|
    && forall x :: 0 <= x < |f.rank| && ChainFull(f, x, chains[x]) ==> ChainFull(f, x, chains'[x])
  }

  lemma ChainParent(f: Forest, x: nat, chain: seq<nat>)
    requires Shaped(f) && x < |f.rank| && ChainOk(f, x, chain)
    ensures ParentOf(chain, x) == f.par[x]
    ensures f.par[x] < 0 ==> ChainFull(f, x, chain) && chain == if f.rank[x] > 0 then [x] else []
  {
    var line := Line(f, x, chain);
    if |line| >= 2 {
      assert f.par[line[0]] == line[1];
    }
  }

  /** Chains determine the parents they were cut from. */
  lemma ChainsParents(f: Forest, chains: seq<seq<nat>>)
    requires Shaped(f) && ChainsOk(f, chains)
    ensures Parents(chains) == f.par
  {
    forall x: nat | x < |chains| ensures ParentOf(chains[x], x) == f.par[x] {
      ChainParent(f, x, chains[x]);
    }
  }

  // ------------------------------------------------- _find

  /** What `_find` answers for x: [x] at a root, elsewhere the full chain. */
  ghost predicate Answers(f: Forest, x: nat, a: seq<nat>)
    requires x < |f.rank|
  {
    if x < |f.par| && f.par[x] < 0 then a == [x] else ChainFull(f, x, a)
  }

  lemma AnswerEndsInRoot(f: Forest, x: nat, a: seq<nat>)
    requires Shaped(f) && x < |f.rank| && Answers(f, x, a)
    ensures |a| > 0 && a[|a| - 1] == Root(f, x)
  {
    if f.par[x] >= 0 {
      var line := Line(f, x, a);
      WalkClimbs(f, x, line, |line| - 1);
    }
  }

  /** The two cases in which `_find` looks no further. */
  lemma FindStops(f: Forest, chains: seq<seq<nat>>, i: nat)
    requires Shaped(f) && ChainsOk(f, chains) && i < |f.rank|
    ensures |f.rank| == |f.par| == |chains|
    ensures (|chains[i]| == 0 || (|chains[i]| == 1 && chains[i][0] == i)) <==> f.par[i] < 0
    ensures f.par[i] >= 0 ==> f.par[i] == if chains[i][0] == i then chains[i][1] else chains[i][0]
    ensures f.par[i] >= 0 ==> f.par[i] < |f.rank| && f.rank[i] < f.rank[f.par[i]] <= f.next
    ensures f.par[i] < 0 ==> ChainFull(f, i, chains[i])
  {
    assert ChainOk(f, i, chains[i]);
    ChainParent(f, i, chains[i]);
  }

  /** Whether or not the answer for the parent p starts at p, it completes the chain. */
  lemma ChainCompletes(f: Forest, i: nat, chain: seq<nat>, p: nat, above: seq<nat>)
    requires Shaped(f) && i < |f.rank| && p < |f.rank| && f.par[i] == p
    requires ChainOk(f, i, chain) && Answers(f, p, above)
    ensures ChainFull(f, i, Extended(chain, above))
  {
    var up := if f.par[p] >= 0 && f.rank[p] == 0 then [p] + above else above;
    assert FullWalk(f, p, up);
    WalkPrepend(f, i, p, up);
    ChainExtends(f, i, chain, up, |up| - |above|);
    assert up[|up| - |above|..] == above;
  }

  /** A partial chain extended by the full walk above its leaf, from its start or from the
      second member on, is that walk in full. */
  lemma ChainExtends(f: Forest, i: nat, chain: seq<nat>, up: seq<nat>, done: nat)
    requires Shaped(f) && i < |f.rank| && f.par[i] >= 0 && ChainOk(f, i, chain)
    requires FullWalk(f, i, [i] + up) && done <= 1 <= |up|
    ensures ChainFull(f, i, Extended(chain, up[done..]))
  {
    var full, line := [i] + up, Line(f, i, chain);
    var head, m := if f.rank[i] > 0 then [i] else [], |line| - 1;
    ChainIsPart(f, i, line, full);
    assert full[..|line|] == [i] + up[..m];
    if f.rank[i] == 0 {
      assert chain == line[1..] == head + up[..m];
    }
    WalkDistinct(f, i, full);
    TailDistinct(i, up);
    ExtendPrefix(head, up, m, done);
    assert Line(f, i, head + up) == full;
  }

  lemma TailDistinct(i: nat, up: seq<nat>)
    requires forall a, b :: 0 <= a < b < |[i] + up| ==> ([i] + up)[a] != ([i] + up)[b]
    ensures Distinct(up) && i !in up
  {
    var full := [i] + up;
    forall a, b | 0 <= a < b < |up| ensures up[a] != up[b] { assert full[a + 1] != full[b + 1]; }
    forall a | 0 <= a < |up| ensures up[a] != i { assert full[0] != full[a + 1]; }
  }

  lemma ChainIsPart(f: Forest, i: nat, line: seq<nat>, full: seq<nat>)
    requires Walk(f, i, line) && FullWalk(f, i, full)
    ensures |line| <= |full| && line == full[..|line|]
  {
    forall t | 0 <= t < |line| ensures t < |full| && line[t] == full[t] {
      WalkPrefix(f, i, line, full, t);
    }
    assert |line| - 1 < |full|;
  }

  /** One level of `_find`. */
  lemma FindStep(f: Forest, chains: seq<seq<nat>>, i: nat, above: seq<nat>)
    requires Shaped(f) && ChainsOk(f, chains) && i < |f.rank| && |chains| == |f.par| == |f.rank|
    requires 0 <= f.par[i] < |f.rank| && Answers(f, f.par[i], above)
    ensures var chains' := chains[i := Extended(chains[i], above)];
            && ChainFull(f, i, chains'[i])
            && ChainsOk(f, chains') && Parents(chains') == f.par && KeepsFull(f, chains, chains')
  {
    assert ChainOk(f, i, chains[i]);
    ChainCompletes(f, i, chains[i], f.par[i], above);
    FullIsOk(f, i, Extended(chains[i], above));
    ChainsParents(f, chains[i := Extended(chains[i], above)]);
  }

  lemma FullIsOk(f: Forest, x: nat, chain: seq<nat>)
    requires x < |f.rank| && ChainFull(f, x, chain)
    ensures ChainOk(f, x, chain)
  {
  }

  // ------------------------------------------------- union

  /** The insert point that `union` computes: position `at` of the full chain of j. */
  lemma InsertPoint(f: Forest, j: nat, chain: seq<nat>, r: nat, at: nat)
    requires Shaped(f) && j < |f.rank| && r < f.rank[Root(f, j)] && ChainFull(f, j, chain) && at <= |chain|
    requires forall t :: 0 <= t < |chain| ==> chain[t] < |f.rank|
    requires forall t :: 0 <= t < at ==> f.rank[chain[t]] <= r
    requires at < |chain| ==> f.rank[chain[at]] > r
    ensures at < |chain| && chain[at] == Rep(f, j, r + 1)
    ensures FullWalk(f, chain[at], chain[at..])
  {
    var line := Line(f, j, chain);
    var off := |line| - |chain|;
    WalkClimbs(f, j, line, |line| - 1);
    assert line[|line| - 1] == Root(f, j);
    forall t | 0 <= t < at + off ensures f.rank[line[t]] <= r {
      assert t >= off ==> line[t] == chain[t - off];
    }
    assert at < |chain|;
    WalkFirstAbove(f, j, line, r, at + off);
    WalkFrom(f, j, line, at + off);
    assert line[at + off..] == chain[at..];
  }

  /** Members of a chain are leaves. */
  lemma ChainInRange(f: Forest, x: nat, chain: seq<nat>)
    requires x < |f.rank| && ChainOk(f, x, chain)
    ensures forall t :: 0 <= t < |chain| ==> chain[t] < |f.rank|
  {
    var line := Line(f, x, chain);
    forall t | 0 <= t < |chain| ensures chain[t] < |f.rank| {
      assert line[t + |line| - |chain|] == chain[t];
    }
  }

  /** The chain of a hung root: its head, then the walk from its new parent. */
  lemma HungChain(f: Forest, lo: nat, p: nat, chain: seq<nat>, above: seq<nat>)
    requires Hangs(f, lo, p) && ChainOk(f, lo, chain) && FullWalk(f, p, above)
    ensures ChainOk(Hang(f, lo, p), lo, Extended(chain, above))
  {
    ChainParent(f, lo, chain);
    HungExtended(f, lo, p, chain, above);
    assert Walk(Hang(f, lo, p), p, above) by {
      var g := Hang(f, lo, p);
      forall t {:trigger g.par[above[t]]} | 0 <= t < |above| - 1 ensures g.par[above[t]] == above[t + 1] {
        assert f.par[above[t]] == above[t + 1];
      }
    }
    WalkPrepend(Hang(f, lo, p), lo, p, above);
    assert Line(Hang(f, lo, p), lo, chain + above) == [lo] + above;
  }

  lemma HungExtended(f: Forest, lo: nat, p: nat, chain: seq<nat>, above: seq<nat>)
    requires Hangs(f, lo, p) && FullWalk(f, p, above) && (chain == [] || chain == [lo])
    ensures Extended(chain, above) == chain + above
  {
    WalkDistinct(f, p, above);
    forall a | 0 <= a < |above| ensures above[a] != lo { WalkClimbs(f, p, above, a); }
    ExtendPrefix(chain, above, 0, 0);
    assert chain + above[..0] == chain && above[0..] == above;
  }

  /** Chains and parents after `lo` has been hung below p. */
  lemma HungChains(f: Forest, lo: nat, p: nat, chains: seq<seq<nat>>, above: seq<nat>)
    requires Hangs(f, lo, p) && ChainsOk(f, chains) && FullWalk(f, p, above)
    ensures |chains| == |f.rank|
    ensures var chains' := chains[lo := Extended(chains[lo], above)];
            ChainsOk(Hang(f, lo, p), chains') && Parents(chains') == Hang(f, lo, p).par
  {
    assert ChainOk(f, lo, chains[lo]);
    HungChain(f, lo, p, chains[lo], above);
    forall x | 0 <= x < |chains| && x != lo ensures ChainOk(Hang(f, lo, p), x, chains[x]) {
      assert ChainOk(f, x, chains[x]);
    }
    HangRoot(f, lo, p, lo);
    ChainsParents(Hang(f, lo, p), chains[lo := Extended(chains[lo], above)]);
  }

  /** A root that grows leads its own chain from then on. */
  lemma GrowChains(f: Forest, hi: nat, chains: seq<seq<nat>>)
    requires Shaped(f) && hi < |f.rank| && f.par[hi] < 0 && ChainsOk(f, chains)
    ensures |chains| == |f.rank| && (chains[hi] == [] || chains[hi] == [hi])
    ensures ChainsOk(Grow(f, hi), chains[hi := [hi]])
    ensures FullWalk(Grow(f, hi), hi, [hi])
  {
    assert ChainOk(f, hi, chains[hi]);
    ChainParent(f, hi, chains[hi]);
    forall x | 0 <= x < |chains| && x != hi ensures ChainOk(Grow(f, hi), x, chains[x]) {
      assert ChainOk(f, x, chains[x]);
    }
  }

  /** A root that outranks another already leads its own chain, so `union` never has to start
      one for it. */
  lemma RootLeads(f: Forest, chains: seq<seq<nat>>, hi: nat)
    requires Shaped(f) && ChainsOk(f, chains) && hi < |f.rank| && f.par[hi] < 0 && f.rank[hi] > 0
    ensures hi < |chains| && chains[hi] == [hi]
  {
    assert ChainOk(f, hi, chains[hi]);
    ChainParent(f, hi, chains[hi]);
  }

  /** The last member of the full chain of i, once the root leads its own chain. */
  lemma WinnerChain(f: Forest, chains: seq<seq<nat>>, i: nat, hi: nat)
    requires Shaped(f) && |chains| == |f.rank| && i < |f.rank| && hi == Root(f, i) && ChainFull(f, i, chains[i])
    ensures var c := chains[hi := [hi]][i]; c != [] && c[|c| - 1..] == [hi]
  {
    if i != hi {
      assert f.par[i] >= 0;
      AnswerEndsInRoot(f, i, chains[i]);
    }
  }
}
