/** How a tree came about: the stages of the recursive build, and what each leaves in the result. */
module PsiGrowth {
  import opened MergeHierarchy
  import opened PsiNodes
  import opened PsiRegroup
  import opened PsiClades
  import opened PsiExactBuild
  import B = PsiBuckets
  import TS = PsiTreeShape

  // ------------------------------------------------- settings

  /** What the numeric parts decide: a ranking of all leaf pairs and a clustering, each a
      function of the nodes (by their indices) and otherwise arbitrary. */
  datatype Settings = Settings(exactMaxLeaves: nat, bucketSize: nat,
                               rank: seq<nat> -> seq<Pair>, cluster: seq<nat> -> B.Labeller)

  ghost predicate Usable(cfg: Settings) {
    && 2 <= cfg.bucketSize <= cfg.exactMaxLeaves
    && forall key: seq<nat> {:trigger cfg.rank(key)} :: IsRanking(|key|, cfg.rank(key))
  }

  function Indices(nodes: seq<PsiNode>): (key: seq<nat>)
    ensures |key| == |nodes| && forall i :: 0 <= i < |nodes| ==> key[i] == nodes[i].index
  {
    seq(|nodes|, i requires 0 <= i < |nodes| => nodes[i].index)
  }

  // ------------------------------------------------- stages

  /** A stage of the build: one tree over the input trees, by ranking them, or by building a
      tree over each bucket of them and then one over those trees. */
  datatype Growth =
    | Ranked(inputs: seq<Shape>, tree: Shape)
    | Bucketed(inputs: seq<Shape>, tree: Shape, buckets: seq<seq<nat>>, parts: seq<Growth>, top: Growth)

  /** What the settings make of the trees. */
  ghost function RankOf(cfg: Settings, inputs: seq<Shape>): seq<Pair> {
    cfg.rank(Indices(Heads(inputs)))
  }

  ghost predicate Grows(cfg: Settings, g: Growth)
    requires cfg.bucketSize >= 2
    decreases g
  {
    match g
    case Ranked(inputs, tree) =>
      && 0 < |inputs| <= cfg.exactMaxLeaves
      && if |inputs| == 1 then tree == inputs[0] else ByMeetings(tree, inputs, RankOf(cfg, inputs))
    case Bucketed(inputs, tree, buckets, parts, top) =>
      && |inputs| > cfg.exactMaxLeaves && |parts| == |buckets|
      && B.Bucketing(buckets, |inputs|, cfg.bucketSize, cfg.cluster(Indices(Heads(inputs))))
      && (forall i :: 0 <= i < |parts| ==> Grows(cfg, parts[i]) && PartOf(parts[i], inputs, buckets[i]))
      && Grows(cfg, top) && top.tree == tree && top.inputs == Trees(parts)
  }

  ghost function Trees(parts: seq<Growth>): (ss: seq<Shape>)
    ensures |ss| == |parts| && forall i :: 0 <= i < |ss| ==> ss[i] == parts[i].tree
  {
    seq(|parts|, i requires 0 <= i < |parts| => parts[i].tree)
  }

  /** The part builds over the trees of one bucket. */
  ghost predicate PartOf(part: Growth, inputs: seq<Shape>, bucket: seq<nat>) {
    (forall i :: 0 <= i < |bucket| ==> bucket[i] < |inputs|) && part.inputs == TS.Pick(inputs, bucket)
  }

  // ------------------------------------------------- nothing built is taken apart again

  lemma OneClade(s: Shape)
    ensures CladesOf([s]) == Clades(s)
  {
    hide Clades;
    assert [s][1..] == [];
  }

  lemma {:induction false} InFlatten(buckets: seq<seq<nat>>, x: nat) returns (i: nat, j: nat)
    requires x in B.Flatten(buckets)
    ensures i < |buckets| && j < |buckets[i]| && buckets[i][j] == x
    decreases |buckets|
  {
    if x in buckets[0] {
      i := 0;
      j :| 0 <= j < |buckets[0]| && buckets[0][j] == x;
    } else {
      i, j := InFlatten(buckets[1..], x);
      i := i + 1;
    }
  }

  /** Every input is in a bucket. */
  lemma InBucket(buckets: seq<seq<nat>>, n: nat, bucketSize: nat, x: nat) returns (i: nat, j: nat)
    requires B.Covering(n, [], buckets, bucketSize) && x < n
    ensures i < |buckets| && j < |buckets[i]| && buckets[i][j] == x
  {
    B.CoveredOnce(n, buckets, bucketSize);
    assert x in multiset(B.Flatten(buckets));
    i, j := InFlatten(buckets, x);
  }

  /** The inputs stand in the result as they were. */
  lemma {:induction false} InputsStay(cfg: Settings, g: Growth)
    requires cfg.bucketSize >= 2 && Grows(cfg, g)
    ensures CladesOf(g.inputs) <= Clades(g.tree)
    decreases g
  {
    hide Clades, CladesOf, B.Bucketing, B.Covering;
    match g
    case Ranked(inputs, tree) =>
      if |inputs| == 1 {
        assert inputs == [inputs[0]];
        OneClade(tree);
      }
    case Bucketed(inputs, tree, buckets, parts, top) =>
      InputsStay(cfg, top);
      forall c | c in CladesOf(inputs) ensures c in Clades(tree) {
        var x := InCladesOf(inputs, c);
        CoveringOf(cfg, g);
        var i, j := InBucket(buckets, |inputs|, cfg.bucketSize, x);
        assert PartOf(parts[i], inputs, buckets[i]);
        assert parts[i].inputs[j] == inputs[x];
        CladesOfMember(parts[i].inputs, j);
        InputsStay(cfg, parts[i]);
        CladesOfMember(top.inputs, i);
      }
  }

  lemma CoveringOf(cfg: Settings, g: Growth)
    requires cfg.bucketSize >= 2 && Grows(cfg, g) && g.Bucketed?
    ensures B.Covering(|g.inputs|, [], g.buckets, cfg.bucketSize)
  {
  }

  /** A part of a stage: one of its buckets, the build over the bucket trees, or a part of one. */
  ghost predicate Within(h: Growth, g: Growth)
    decreases g
  {
    h == g || (g.Bucketed? && (Within(h, g.top) || exists i :: 0 <= i < |g.parts| && Within(h, g.parts[i])))
  }

  /** Every tree that a stage builds stands in the final tree, node by node with its leaves. */
  lemma {:induction false} StagesStay(cfg: Settings, g: Growth, h: Growth)
    requires cfg.bucketSize >= 2 && Grows(cfg, g) && Within(h, g)
    ensures Grows(cfg, h) && Clades(h.tree) <= Clades(g.tree)
    decreases g
  {
    hide Clades, CladesOf, B.Bucketing;
    if h != g {
      if Within(h, g.top) {
        StagesStay(cfg, g.top, h);
      } else {
        var i :| 0 <= i < |g.parts| && Within(h, g.parts[i]);
        StagesStay(cfg, g.parts[i], h);
        InputsStay(cfg, g.top);
        CladesOfMember(g.top.inputs, i);
      }
    }
  }

  /** Whatever a stage ranks, its classes are nodes of the final tree: the trees that meet x at
      level k, by the ranking of that stage, are together the leaves of one node. */
  lemma StageMeetings(cfg: Settings, g: Growth, h: Growth, k: nat, x: nat)
    requires cfg.bucketSize >= 2 && Grows(cfg, g) && Within(h, g) && h.Ranked? && 1 < |h.inputs| && x < |h.inputs|
    ensures HasClade(g.tree, Meeting(h.inputs, RankOf(cfg, h.inputs), k, x))
  {
    StagesStay(cfg, g, h);
    hide Clades, CladesOf, Meeting;
    assert HasClade(h.tree, Meeting(h.inputs, RankOf(cfg, h.inputs), k, x));
    MoreClades(h.tree, g.tree, Meeting(h.inputs, RankOf(cfg, h.inputs), k, x));
  }

  lemma MoreClades(s: Shape, s': Shape, vs: set<PsiNode>)
    requires HasClade(s, vs) && Clades(s) <= Clades(s')
    ensures HasClade(s', vs)
  {
    hide Clades;
    var c :| c in Clades(s) && Members(c.1) == vs;
    assert c in Clades(s');
  }

  // ------------------------------------------------- over single leaves

  /** Leaf trees of the given nodes. */
  ghost function LeafShapes(nodes: seq<PsiNode>): (ss: seq<Shape>)
    ensures |ss| == |nodes| && forall i :: 0 <= i < |ss| ==> ss[i] == Shape(nodes[i], [])
  {
    if nodes == [] then [] else [Shape(nodes[0], [])] + LeafShapes(nodes[1..])
  }

  /** The leaves that the ranking makes meet leaf x at level k. */
  ghost function LeavesMeeting(leaves: seq<PsiNode>, pairs: seq<Pair>, k: nat, x: nat): set<PsiNode> {
    set y: nat | y < |leaves| && Meet(pairs, k, x, y) :: leaves[y]
  }

  lemma MeetingOfLeaves(leaves: seq<PsiNode>, pairs: seq<Pair>, k: nat, x: nat)
    ensures Meeting(LeafShapes(leaves), pairs, k, x) == LeavesMeeting(leaves, pairs, k, x)
  {
    var ss := LeafShapes(leaves);
    forall y: nat | y < |leaves| ensures Leaves(ss[y]) == [leaves[y]] {
      assert ss[y] == Shape(leaves[y], []);
    }
    hide Meet, Leaves, LeafShapes;
    var a, b := Meeting(ss, pairs, k, x), LeavesMeeting(leaves, pairs, k, x);
    forall v | v in a ensures v in b {
      InMeeting(ss, pairs, k, x, v);
      var y: nat :| y < |ss| && v in Leaves(ss[y]) && Meet(pairs, k, x, y);
      assert v == leaves[y];
    }
    forall v | v in b ensures v in a {
      var y: nat :| y < |leaves| && Meet(pairs, k, x, y) && leaves[y] == v;
      assert v in Leaves(ss[y]);
    }
    assert a == b;
  }

  /** Few leaves: the classes of the one ranking are nodes of the tree. */
  lemma FewLeaves(cfg: Settings, g: Growth, leaves: seq<PsiNode>, k: nat, x: nat)
    requires cfg.bucketSize >= 2 && Grows(cfg, g) && g.inputs == LeafShapes(leaves)
    requires 1 < |leaves| <= cfg.exactMaxLeaves && x < |leaves|
    ensures HasClade(g.tree, LeavesMeeting(leaves, cfg.rank(Indices(leaves)), k, x))
  {
    hide Meeting, LeavesMeeting;
    StageMeetings(cfg, g, g, k, x);
    MeetingOfLeaves(leaves, RankOf(cfg, g.inputs), k, x);
    assert Heads(LeafShapes(leaves)) == leaves;
  }

  /** Many leaves: the classes of each bucket's ranking are. */
  lemma BucketLeaves(cfg: Settings, g: Growth, leaves: seq<PsiNode>, i: nat, k: nat, x: nat)
    requires cfg.bucketSize >= 2 && Grows(cfg, g) && g.inputs == LeafShapes(leaves) && g.Bucketed? && cfg.bucketSize <= cfg.exactMaxLeaves
    requires i < |g.buckets| && |g.buckets[i]| > 1 && x < |g.buckets[i]|
    ensures forall j :: 0 <= j < |g.buckets[i]| ==> g.buckets[i][j] < |leaves|
    ensures HasClade(g.tree, LeavesMeeting(At(leaves, g.buckets[i]), cfg.rank(Indices(At(leaves, g.buckets[i]))), k, x))
  {
    hide Meeting, LeavesMeeting, Clades, B.Bucketing;
    var part := g.parts[i];
    assert PartOf(part, g.inputs, g.buckets[i]);
    CoveringOf(cfg, g);
    assert |g.buckets[i]| <= cfg.bucketSize;
    var own := At(leaves, g.buckets[i]);
    assert part.inputs == LeafShapes(own);
    assert Within(part, g);
    StageMeetings(cfg, g, part, k, x);
    MeetingOfLeaves(own, RankOf(cfg, part.inputs), k, x);
    assert Heads(LeafShapes(own)) == own;
  }

  /** `[nodes[idx] for idx in bucket]`. */
  function At(nodes: seq<PsiNode>, ps: seq<nat>): (ns: seq<PsiNode>)
    requires forall i :: 0 <= i < |ps| ==> ps[i] < |nodes|
    ensures |ns| == |ps| && forall i :: 0 <= i < |ps| ==> ns[i] == nodes[ps[i]]
  {
    seq(|ps|, i requires 0 <= i < |ps| => nodes[ps[i]])
  }
}
