/** What regrouping does to a tree, told on values: new nodes have no name. */
module PsiRegroup {
  import opened Options
  import opened PsiNodes

  /** A tree whose nodes are known ones, or None for new ones. */
  datatype Form = Form(node: Option<PsiNode>, kids: seq<Form>)

  /** A shape with its nodes outside `old` unnamed. */
  ghost function FormOf(s: Shape, known: set<PsiNode>): Form {
    Form(if s.node in known then Some(s.node) else None, FormsOf(s.kids, known))
  }

  ghost function FormsOf(ss: seq<Shape>, known: set<PsiNode>): (fs: seq<Form>)
    ensures |fs| == |ss| && forall i :: 0 <= i < |ss| ==> fs[i] == FormOf(ss[i], known)
  {
    if ss == [] then [] else [FormOf(ss[0], known)] + FormsOf(ss[1..], known)
  }

  lemma FormsAppend(a: seq<Shape>, b: seq<Shape>, known: set<PsiNode>)
    ensures FormsOf(a + b, known) == FormsOf(a, known) + FormsOf(b, known)
  {
    hide FormOf;
  }

  lemma FormsSlice(ss: seq<Shape>, i: nat, j: nat, known: set<PsiNode>)
    requires i <= j <= |ss|
    ensures FormsOf(ss[i..j], known) == FormsOf(ss, known)[i..j]
  {
    hide FormOf;
  }

  // ------------------------------------------------- one pass

  /** A batch of one stays; any other gets a new parent. */
  ghost function Bundle(batch: seq<Form>): Form {
    if |batch| == 1 then batch[0] else Form(None, batch)
  }

  ghost function RowOf(fs: seq<Form>, limit: nat): (r: seq<Form>)
    requires limit >= 2
    ensures |r| <= |fs| && (|fs| > limit ==> |r| < |fs|) && (fs != [] ==> r != [])
    decreases |fs|
  {
    if fs == [] then []
    else if |fs| <= limit then [Bundle(fs)]
    else [Bundle(fs[..limit])] + RowOf(fs[limit..], limit)
  }

  lemma {:induction false} MoreTimes(a: nat, b: nat, d: nat)
    requires a < b
    ensures a * d + d <= b * d
    decreases b
  {
    var c := b - 1;
    assert b * d == c * d + d;
    if a < c {
      MoreTimes(a, c, d);
    }
  }

  lemma DivIs(x: nat, d: nat, q: nat, r: nat)
    requires r < d && x == q * d + r
    ensures x / d == q
  {
    var p, m := x / d, x % d;
    assert x == p * d + m && m < d;
    if p < q {
      MoreTimes(p, q, d);
    } else if q < p {
      MoreTimes(q, p, d);
    }
  }

  lemma OneMore(x: nat, d: nat)
    requires d > 0
    ensures (x + d) / d == x / d + 1
  {
    assert x == (x / d) * d + x % d;
    assert (x / d + 1) * d == (x / d) * d + d;
    DivIs(x + d, d, x / d + 1, x % d);
  }

  /** As many batches as it takes. */
  lemma {:induction false} RowLength(fs: seq<Form>, limit: nat)
    requires limit >= 2
    ensures |RowOf(fs, limit)| == (|fs| + limit - 1) / limit
    decreases |fs|
  {
    if |fs| > limit {
      RowLength(fs[limit..], limit);
      OneMore(|fs| - 1, limit);
    } else if fs != [] {
      DivIs(|fs| + limit - 1, limit, 1, |fs| - 1);
    } else {
      DivIs(limit - 1, limit, 0, limit - 1);
    }
  }

  /** Batch k holds the children from k * limit on, `limit` of them unless it is the last; it
      is left alone when it is a single child and has a new parent otherwise. */
  lemma {:induction false} RowAt(fs: seq<Form>, limit: nat, k: nat)
    requires limit >= 2 && k * limit < |fs|
    ensures k < |RowOf(fs, limit)|
    ensures var stop := if (k + 1) * limit < |fs| then (k + 1) * limit else |fs|;
      && k * limit < stop
      && (stop == k * limit + 1 ==> RowOf(fs, limit)[k] == fs[k * limit])
      && (stop != k * limit + 1 ==> RowOf(fs, limit)[k] == Form(None, fs[k * limit..stop]))
    decreases k
  {
    if k == 0 {
      assert fs[0..] == fs;
    } else {
      Times(k, limit);
      assert k * limit >= limit;
      var rest := fs[limit..];
      RowAt(rest, limit, k - 1);
      var stop := if (k + 1) * limit < |fs| then (k + 1) * limit else |fs|;
      assert fs[k * limit..stop] == rest[(k - 1) * limit..stop - limit];
    }
  }

  lemma Times(k: nat, limit: nat)
    requires k > 0
    ensures k * limit == (k - 1) * limit + limit && (k + 1) * limit == k * limit + limit
  {
  }

  // ------------------------------------------------- one node, and a tree

  /** Passes until the children are within the limit. */
  ghost function Grouped(fs: seq<Form>, limit: nat): (r: seq<Form>)
    requires limit >= 2
    ensures |r| <= limit
    decreases |fs|
  {
    if |fs| <= limit then fs else Grouped(RowOf(fs, limit), limit)
  }

  /** Children first, then the node's own list. */
  ghost function Regrouped(s: Shape, limit: nat): Form
    requires limit >= 2
  {
    Form(Some(s.node), Grouped(RegroupedAll(s.kids, limit), limit))
  }

  ghost function RegroupedAll(ss: seq<Shape>, limit: nat): (fs: seq<Form>)
    requires limit >= 2
    ensures |fs| == |ss| && forall i :: 0 <= i < |ss| ==> fs[i] == Regrouped(ss[i], limit)
  {
    if ss == [] then [] else [Regrouped(ss[0], limit)] + RegroupedAll(ss[1..], limit)
  }

  // ------------------------------------------------- clades

  type Clade = (PsiNode, seq<PsiNode>)

  /** Every node of a tree with the leaves below it, from left to right. */
  ghost function Clades(s: Shape): set<Clade> {
    {(s.node, Leaves(s))} + CladesOf(s.kids)
  }

  ghost function CladesOf(ss: seq<Shape>): set<Clade> {
    if ss == [] then {} else Clades(ss[0]) + CladesOf(ss[1..])
  }

  /** Leaves of a form; only named nodes count. */
  ghost function FormLeaves(f: Form): seq<PsiNode> {
    if f.kids == [] then (if f.node.Some? then [f.node.value] else []) else FormsLeaves(f.kids)
  }

  ghost function FormsLeaves(fs: seq<Form>): seq<PsiNode> {
    if fs == [] then [] else FormLeaves(fs[0]) + FormsLeaves(fs[1..])
  }

  ghost function FormClades(f: Form): set<Clade> {
    (if f.node.Some? then {(f.node.value, FormLeaves(f))} else {}) + FormsClades(f.kids)
  }

  ghost function FormsClades(fs: seq<Form>): set<Clade> {
    if fs == [] then {} else FormClades(fs[0]) + FormsClades(fs[1..])
  }

  lemma {:induction false} FormsJoin(a: seq<Form>, b: seq<Form>)
    ensures FormsLeaves(a + b) == FormsLeaves(a) + FormsLeaves(b)
    ensures FormsClades(a + b) == FormsClades(a) + FormsClades(b)
    decreases |a|
  {
    if a == [] {
      assert a + b == b;
    } else {
      assert (a + b)[1..] == a[1..] + b && (a + b)[0] == a[0];
      FormsJoin(a[1..], b);
      hide FormLeaves, FormClades;
    }
  }

  lemma OneForm(f: Form)
    ensures FormsLeaves([f]) == FormLeaves(f) && FormsClades([f]) == FormClades(f)
  {
    hide FormLeaves, FormClades;
    assert [f][1..] == [];
  }

  lemma BundleKeeps(batch: seq<Form>)
    requires batch != []
    ensures FormLeaves(Bundle(batch)) == FormsLeaves(batch) && FormClades(Bundle(batch)) == FormsClades(batch)
  {
    if |batch| == 1 {
      assert batch == [batch[0]];
      OneForm(batch[0]);
    }
  }

  /** A pass changes no leaf order and no known node's leaves. */
  lemma {:induction false} RowKeeps(fs: seq<Form>, limit: nat)
    requires limit >= 2
    ensures FormsLeaves(RowOf(fs, limit)) == FormsLeaves(fs) && FormsClades(RowOf(fs, limit)) == FormsClades(fs)
    decreases |fs|
  {
    hide FormsLeaves, FormsClades, Bundle;
    if fs != [] {
      if |fs| <= limit {
        BundleKeeps(fs);
        OneForm(Bundle(fs));
      } else {
        var batch, rest := fs[..limit], fs[limit..];
        BundleKeeps(batch);
        OneForm(Bundle(batch));
        RowKeeps(rest, limit);
        FormsJoin([Bundle(batch)], RowOf(rest, limit));
        FormsJoin(batch, rest);
        assert fs == batch + rest;
      }
    }
  }

  lemma {:induction false} GroupedKeeps(fs: seq<Form>, limit: nat)
    requires limit >= 2
    ensures FormsLeaves(Grouped(fs, limit)) == FormsLeaves(fs) && FormsClades(Grouped(fs, limit)) == FormsClades(fs)
    ensures Grouped(fs, limit) == [] <==> fs == []
    decreases |fs|
  {
    if |fs| > limit {
      hide FormsLeaves, FormsClades;
      RowKeeps(fs, limit);
      GroupedKeeps(RowOf(fs, limit), limit);
    }
  }

  /** Regrouping keeps the leaves in their order, and every node with exactly its leaves. */
  lemma {:induction false} RegroupedKeeps(s: Shape, limit: nat)
    requires limit >= 2
    ensures FormLeaves(Regrouped(s, limit)) == Leaves(s) && FormClades(Regrouped(s, limit)) == Clades(s)
    decreases s, 1
  {
    RegroupedAllKeeps(s.kids, limit);
    GroupedKeeps(RegroupedAll(s.kids, limit), limit);
    hide Grouped, FormsLeaves, FormsClades, LeavesOf, CladesOf, RegroupedAll;
  }

  lemma {:induction false} RegroupedAllKeeps(ss: seq<Shape>, limit: nat)
    requires limit >= 2
    ensures FormsLeaves(RegroupedAll(ss, limit)) == LeavesOf(ss) && FormsClades(RegroupedAll(ss, limit)) == CladesOf(ss)
    decreases ss, 0
  {
    if ss != [] {
      RegroupedKeeps(ss[0], limit);
      RegroupedAllKeeps(ss[1..], limit);
      hide Regrouped, FormLeaves, FormClades, Leaves, Clades;
      var fs := RegroupedAll(ss, limit);
      assert fs[0] == Regrouped(ss[0], limit) && fs[1..] == RegroupedAll(ss[1..], limit);
    }
  }

  // ------------------------------------------------- forms of shapes

  /** Whose leaves are known: only inner nodes are unnamed. */
  ghost predicate LeavesKnown(s: Shape, known: set<PsiNode>) {
    forall w :: w in Leaves(s) ==> w in known
  }

  ghost function Named(cs: set<Clade>, known: set<PsiNode>): set<Clade> {
    set c | c in cs && c.0 in known
  }

  lemma NamedUnion(a: set<Clade>, b: set<Clade>, known: set<PsiNode>)
    ensures Named(a + b, known) == Named(a, known) + Named(b, known)
  {
  }

  /** The named clades of a form are the clades of the shape at known nodes. */
  lemma {:induction false} FormClade(s: Shape, known: set<PsiNode>)
    requires LeavesKnown(s, known)
    ensures FormLeaves(FormOf(s, known)) == Leaves(s)
    ensures FormClades(FormOf(s, known)) == Named(Clades(s), known)
    decreases s, 1
  {
    if s.kids == [] {
      assert s.node in Leaves(s);
    } else {
      FormCladeAll(s.kids, known);
    }
    hide FormsOf, FormsLeaves, FormsClades, LeavesOf, CladesOf;
    NamedUnion({(s.node, Leaves(s))}, CladesOf(s.kids), known);
    if s.kids == [] {
      NoClades(known);
    }
  }

  lemma NoClades(known: set<PsiNode>)
    ensures CladesOf([]) == {} && FormsClades([]) == {} && FormsOf([], known) == [] && Named({}, known) == {}
  {
  }

  lemma {:induction false} FormCladeAll(ss: seq<Shape>, known: set<PsiNode>)
    requires forall w :: w in LeavesOf(ss) ==> w in known
    ensures FormsLeaves(FormsOf(ss, known)) == LeavesOf(ss)
    ensures FormsClades(FormsOf(ss, known)) == Named(CladesOf(ss), known)
    decreases ss, 0
  {
    if ss == [] {
      NoClades(known);
    } else {
      FormClade(ss[0], known);
      FormCladeAll(ss[1..], known);
      hide FormOf, FormLeaves, FormClades, Leaves, Clades;
      var fs := FormsOf(ss, known);
      assert fs[0] == FormOf(ss[0], known) && fs[1..] == FormsOf(ss[1..], known);
      NamedUnion(Clades(ss[0]), CladesOf(ss[1..]), known);
    }
  }

  lemma {:induction false} CladesInside(s: Shape, c: Clade)
    requires c in Clades(s)
    ensures c.0 in Nodes(s)
    decreases s, 1
  {
    if c != (s.node, Leaves(s)) {
      CladesInsideAll(s.kids, c);
    }
  }

  lemma {:induction false} CladesInsideAll(ss: seq<Shape>, c: Clade)
    requires c in CladesOf(ss)
    ensures c.0 in NodesOf(ss)
    decreases ss, 0
  {
    if c in Clades(ss[0]) {
      CladesInside(ss[0], c);
    } else {
      CladesInsideAll(ss[1..], c);
    }
  }

  /** A tree that is the regrouping of another, up to new nodes, has the same leaves in the
      same order, and of the old nodes each has exactly the leaves that it had. */
  lemma RegroupedTree(s: Shape, s': Shape, limit: nat)
    requires limit >= 2 && FormOf(s', Nodes(s)) == Regrouped(s, limit) && LeavesKnown(s', Nodes(s))
    ensures Leaves(s') == Leaves(s) && Named(Clades(s'), Nodes(s)) == Clades(s) && Clades(s) <= Clades(s')
  {
    hide FormOf, Regrouped, FormLeaves, FormClades, Clades, Leaves, Nodes, Named, LeavesKnown;
    FormClade(s', Nodes(s));
    RegroupedKeeps(s, limit);
    NamedBelow(Clades(s'), Nodes(s));
  }

  lemma NamedBelow(cs: set<Clade>, known: set<PsiNode>)
    ensures Named(cs, known) <= cs
  {
  }
}
