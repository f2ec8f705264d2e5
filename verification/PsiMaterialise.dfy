/** The materialisation loop of `_build_psi_layers`: summaries layer by layer, bottom-up. */
module PsiMaterialise {
  import opened PsiNodes
  import opened PsiLayers
  import opened LayerRanges
  import opened Options
  import opened RaptorChunks
  import PsiBuild

  /** What the language and embedding models answer for a node and the texts of its children;
      None is a failed summary. */
  type Summariser<!E> = (nat, seq<string>) -> Option<Chunk<E>>

  type Texts = map<PsiNode, string>

  ghost function TextsNow(ns: set<PsiNode>): Texts
    reads ns`text
  {
    map w | w in ns :: w.text
  }

  // ------------------------------------------------- what one layer adds

  ghost function TextOf(t: Texts, w: PsiNode): string {
    if w in t then t[w] else ""
  }

  /** The non-empty texts of the listed nodes, in order. */
  ghost function KidTexts(t: Texts, kids: seq<PsiNode>): seq<string> {
    if kids == [] then [] else
    var last := TextOf(t, kids[|kids| - 1]);
    KidTexts(t, kids[..|kids| - 1]) + if last != "" then [last] else []
  }

  /** The texts of two lists of children, one after the other. */
  lemma {:induction false} KidTextsAppend(t: Texts, a: seq<PsiNode>, b: seq<PsiNode>)
    ensures KidTexts(t, a + b) == KidTexts(t, a) + KidTexts(t, b)
    decreases |b|
  {
    if b == [] {
      assert a + b == a;
    } else {
      var front, last := b[..|b| - 1], b[|b| - 1];
      assert (a + b)[..|a + b| - 1] == a + front && (a + b)[|a + b| - 1] == last;
      KidTextsAppend(t, a, front);
    }
  }

  /** A child with a text counts once, one without not at all. */
  lemma KidTextsOne(t: Texts, c: PsiNode)
    ensures KidTexts(t, [c]) == if TextOf(t, c) == "" then [] else [TextOf(t, c)]
  {
    assert [c][..0] == [];
    assert KidTexts(t, []) == [];
  }

  /** The texts of all the listed nodes. */
  ghost function TextsAll(t: Texts, kids: seq<PsiNode>): (s: seq<string>)
    ensures |s| == |kids| && forall i :: 0 <= i < |kids| ==> s[i] == TextOf(t, kids[i])
  {
    seq(|kids|, i requires 0 <= i < |kids| => TextOf(t, kids[i]))
  }

  lemma {:induction false} KidTextsFull(t: Texts, kids: seq<PsiNode>)
    requires forall c :: c in kids ==> TextOf(t, c) != ""
    ensures KidTexts(t, kids) == TextsAll(t, kids)
    decreases |kids|
  {
    if kids != [] {
      var front, last := kids[..|kids| - 1], kids[|kids| - 1];
      KidTextsFull(t, front);
      assert KidTexts(t, kids) == KidTexts(t, front) + [TextOf(t, last)];
      hide KidTexts;
      assert TextsAll(t, kids) == TextsAll(t, front) + [TextOf(t, last)];
    }
  }

  ghost function Answer<E>(t: Texts, node: PsiNode, summarise: Summariser<E>): Option<Chunk<E>>
    reads node`children
  {
    var texts := KidTexts(t, node.children);
    if texts == [] then None else summarise(node.index, texts)
  }

  lemma {:induction false} NoKidTexts(t: Texts, kids: seq<PsiNode>)
    ensures KidTexts(t, kids) == [] <==> forall c :: c in kids ==> TextOf(t, c) == ""
    decreases |kids|
  {
    if kids != [] {
      var front, last := kids[..|kids| - 1], kids[|kids| - 1];
      NoKidTexts(t, front);
      assert forall c :: c in kids <==> c in front || c == last;
    }
  }

  /** A node is summarised exactly when some child has a text and the call succeeds; a summary
      that succeeds with an empty text therefore counts for nothing one layer up. */
  lemma SummarisedExactly<E>(t: Texts, node: PsiNode, summarise: Summariser<E>)
    ensures Answer(t, node, summarise).Some? <==>
      (exists c :: c in node.children && TextOf(t, c) != "") && summarise(node.index, KidTexts(t, node.children)).Some?
    ensures Answer(t, node, summarise).Some? ==> Answer(t, node, summarise) == summarise(node.index, KidTexts(t, node.children))
  {
    NoKidTexts(t, node.children);
  }

  /** The successful summaries of the listed nodes, in order. */
  ghost function Collected<E>(t: Texts, nodes: seq<PsiNode>, summarise: Summariser<E>): seq<Chunk<E>>
    reads (set w | w in nodes)`children
  {
    if nodes == [] then [] else
    var last := Answer(t, nodes[|nodes| - 1], summarise);
    Collected(t, nodes[..|nodes| - 1], summarise) + if last.Some? then [last.value] else []
  }

  lemma {:induction false} CollectedAppend<E>(t: Texts, a: seq<PsiNode>, b: seq<PsiNode>, summarise: Summariser<E>)
    ensures Collected(t, a + b, summarise) == Collected(t, a, summarise) + Collected(t, b, summarise)
    decreases |b|
  {
    if b == [] {
      assert a + b == a;
    } else {
      var front, last := b[..|b| - 1], b[|b| - 1];
      assert (a + b)[..|a + b| - 1] == a + front && (a + b)[|a + b| - 1] == last;
      CollectedAppend(t, a, front, summarise);
    }
  }

  lemma CollectedOne<E>(t: Texts, w: PsiNode, summarise: Summariser<E>)
    ensures Collected(t, [w], summarise)
            == if Answer(t, w, summarise).Some? then [Answer(t, w, summarise).value] else []
  {
    hide Answer;
    assert [w][..0] == [];
    assert Collected(t, [], summarise) == [];
  }

  /** Text of a node after its summary was asked for. */
  ghost function Settled<E>(before: string, answer: Option<Chunk<E>>): string {
    if answer.Some? then answer.value.text else before
  }

  /** Children of the listed nodes lie in `all` and outside the list. */
  ghost predicate Lower(nodes: seq<PsiNode>, all: set<PsiNode>)
    reads (set w | w in nodes)`children
  {
    forall w, c :: w in nodes && c in w.children ==> c in all && c !in nodes
  }

  lemma {:induction false} SameKidTexts(t: Texts, t': Texts, kids: seq<PsiNode>)
    requires forall c :: c in kids ==> TextOf(t, c) == TextOf(t', c)
    ensures KidTexts(t, kids) == KidTexts(t', kids)
    decreases |kids|
  {
    if kids != [] {
      SameKidTexts(t, t', kids[..|kids| - 1]);
    }
  }

  /** `[child.text for child in node.children if child.text]`. */
  method ChildTexts(node: PsiNode, ghost t: Texts) returns (texts: seq<string>)
    requires forall c :: c in node.children ==> TextOf(t, c) == c.text
    ensures texts == KidTexts(t, node.children)
  {
    texts := [];
    for i := 0 to |node.children|
      invariant texts == KidTexts(t, node.children[..i])
    {
      assert node.children[..i + 1][..i] == node.children[..i];
      if node.children[i].text != "" {
        texts := texts + [node.children[i].text];
      }
    }
    assert node.children[..|node.children|] == node.children;
  }

  /** `summarize_node`: asks for the summary and stores it. */
  method SummariseNode<E>(node: PsiNode, summarise: Summariser<E>, ghost t: Texts) returns (result: Option<Chunk<E>>)
    requires forall c :: c in node.children ==> TextOf(t, c) == c.text
    modifies node`text
    ensures result == Answer(t, node, summarise) && node.text == Settled(old(node.text), result)
  {
    hide KidTexts;
    var texts := ChildTexts(node, t);
    assert KidTexts(t, node.children) == texts;
    result := None;
    if texts != [] {
      result := summarise(node.index, texts);
      if result.Some? {
        node.text := result.value.text;
      }
    }
  }

  /** The concurrent calls of one layer. Each reads only children, outside the layer, so every
      answer is the one for the texts before the layer, in whatever order they finish: each
      turn of the loop takes any call that has not run. Results are collected in list order. */
  method SummariseLayer<E>(nodes: seq<PsiNode>, summarise: Summariser<E>, ghost all: set<PsiNode>) returns (added: seq<Chunk<E>>)
    requires forall i, j :: 0 <= i < j < |nodes| ==> nodes[i] != nodes[j]
    requires Lower(nodes, all)
    modifies (set w | w in nodes)`text
    ensures added == Collected(old(TextsNow(all)), nodes, summarise)
    ensures forall i :: 0 <= i < |nodes| ==>
      nodes[i].text == Settled(old(nodes[i].text), Answer(old(TextsNow(all)), nodes[i], summarise))
  {
    hide Answer, Settled;
    ghost var t := TextsNow(all);
    var results: map<PsiNode, Option<Chunk<E>>> := map[];
    var todo := set w | w in nodes;
    while todo != {}
      invariant forall w :: w in todo ==> w in nodes && w.text == old(w.text)
      invariant forall w :: w in nodes && w !in todo ==>
        && w in results && results[w] == Answer(t, w, summarise)
        && w.text == Settled(old(w.text), Answer(t, w, summarise))
      decreases |todo|
    {
      var node :| node in todo;
      var result := SummariseNode(node, summarise, t);
      results := results[node := result];
      todo := todo - {node};
    }
    added := [];
    for at := 0 to |nodes|
      invariant added == Collected(t, nodes[..at], summarise)
    {
      assert nodes[..at + 1][..at] == nodes[..at];
      if results[nodes[at]].Some? {
        added := added + [results[nodes[at]].value];
      }
    }
    assert nodes[..|nodes|] == nodes;
  }

  // ------------------------------------------------- the chunks of the first layers

  lemma LayerInside(s: Shape, h: nat)
    ensures forall w :: w in Layer(s, h) ==> w in Nodes(s)
  {
    forall w | w in Layer(s, h) ensures w in Nodes(s) {
      var x := Layered(s, h, w);
    }
  }

  /** The summaries of layer h. */
  ghost function LayerChunks<E>(t: Texts, s: Shape, h: nat, summarise: Summariser<E>): seq<Chunk<E>>
    reads Nodes(s)`children
  {
    LayerInside(s, h);
    Collected(t, Layer(s, h), summarise)
  }

  /** The summaries of the layers from 1 to m, lowest first. */
  ghost function Gathered<E>(t: Texts, s: Shape, m: nat, summarise: Summariser<E>): seq<Chunk<E>>
    reads Nodes(s)`children
  {
    if m == 0 then [] else Gathered(t, s, m - 1, summarise) + LayerChunks(t, s, m, summarise)
  }

  /** The ranges of n original chunks and of the layers from 1 to m. */
  ghost function Ranges<E>(n: nat, t: Texts, s: Shape, m: nat, summarise: Summariser<E>): seq<(nat, nat)>
    reads Nodes(s)`children
  {
    if m == 0 then [(0, n)] else
    Ranges(n, t, s, m - 1, summarise) + [(n + |Gathered(t, s, m - 1, summarise)|, n + |Gathered(t, s, m, summarise)|)]
  }

  /** Range k of the result holds the summaries of layer k, and range 0 the original chunks. */
  lemma {:induction false} RangeHoldsLayer<E>(chunks: seq<Chunk<E>>, t: Texts, s: Shape, m: nat, k: nat, summarise: Summariser<E>)
    requires k <= m
    ensures var out, ranges := chunks + Gathered(t, s, m, summarise), Ranges(|chunks|, t, s, m, summarise);
      && |ranges| == m + 1 && ranges[k].0 <= ranges[k].1 <= |out|
      && out[ranges[k].0..ranges[k].1] == if k == 0 then chunks else LayerChunks(t, s, k, summarise)
    decreases m
  {
    hide LayerChunks;
    if m > 0 {
      var init, more := chunks + Gathered(t, s, m - 1, summarise), LayerChunks(t, s, m, summarise);
      assert chunks + Gathered(t, s, m, summarise) == init + more;
      RangeHoldsLayer(chunks, t, s, m - 1, if k < m then k else 0, summarise);
      RangesLast(chunks, t, s, m, summarise);
      if k < m {
        var r := Ranges(|chunks|, t, s, m - 1, summarise)[k];
        SliceOfPrefix(init, more, r.0, r.1);
      } else {
        SliceOfSuffix(init, more);
      }
    }
  }

  lemma RangesLast<E>(chunks: seq<Chunk<E>>, t: Texts, s: Shape, m: nat, summarise: Summariser<E>)
    requires m > 0
    ensures Ranges(|chunks|, t, s, m, summarise)
            == Ranges(|chunks|, t, s, m - 1, summarise)
               + [(|chunks + Gathered(t, s, m - 1, summarise)|,
                   |chunks + Gathered(t, s, m - 1, summarise) + LayerChunks(t, s, m, summarise)|)]
  {
    hide LayerChunks;
  }

  lemma SliceOfPrefix<T>(a: seq<T>, b: seq<T>, i: nat, j: nat)
    requires i <= j <= |a|
    ensures (a + b)[i..j] == a[i..j]
  {
  }

  lemma SliceOfSuffix<T>(a: seq<T>, b: seq<T>)
    ensures (a + b)[|a|..|a + b|] == b
  {
  }

  /** Where a node's text comes from once layers 1 to m are summarised: the summary of its
      children's texts if that succeeded, else what it was. */
  ghost predicate SettledAt<E>(was: Texts, t: Texts, s: Shape, m: nat, w: PsiNode, summarise: Summariser<E>)
    requires w in Nodes(s)
    reads Nodes(s)`children
  {
    && (forall h :: 1 <= h <= m && w in Layer(s, h) ==>
         TextOf(t, w) == Settled(TextOf(was, w), Answer(t, w, summarise)))
    && ((forall h :: 1 <= h <= m ==> w !in Layer(s, h)) ==> TextOf(t, w) == TextOf(was, w))
  }

  ghost predicate SettledUpTo<E>(was: Texts, t: Texts, s: Shape, m: nat, summarise: Summariser<E>)
    reads Nodes(s)`children
  {
    forall w :: w in Nodes(s) ==> SettledAt(was, t, s, m, w, summarise)
  }

  /** Once its layer is summarised, a node whose children all have texts holds the summary of
      exactly those texts, one for each child in their order, if that call succeeds, and its
      old text if not. */
  ghost predicate HoldsSummary<E>(was: Texts, t: Texts, w: PsiNode, summarise: Summariser<E>)
    reads w`children
  {
    w.children != [] && (forall c :: c in w.children ==> TextOf(t, c) != "") ==>
      var answer := summarise(w.index, TextsAll(t, w.children));
      TextOf(t, w) == if answer.Some? then answer.value.text else TextOf(was, w)
  }

  ghost predicate SummariesHeld<E>(was: Texts, t: Texts, s: Shape, m: nat, summarise: Summariser<E>)
    reads Nodes(s)`children
  {
    forall h: nat, w :: 1 <= h <= m && w in Nodes(s) && w in Layer(s, h) ==> HoldsSummary(was, t, w, summarise)
  }

  /** The same without the old texts: what holds where the calls succeed. */
  ghost predicate SummariesGiven<E>(t: Texts, s: Shape, m: nat, summarise: Summariser<E>)
    reads Nodes(s)`children
  {
    forall h: nat, w :: 1 <= h <= m && w in Nodes(s) && w in Layer(s, h) ==> GivesSummary(t, w, summarise)
  }

  ghost predicate GivesSummary<E>(t: Texts, w: PsiNode, summarise: Summariser<E>)
    reads w`children
  {
    w.children != [] && (forall c :: c in w.children ==> TextOf(t, c) != "") ==>
      var answer := summarise(w.index, TextsAll(t, w.children));
      answer.Some? ==> TextOf(t, w) == answer.value.text
  }

  lemma HeldGiven<E>(was: Texts, t: Texts, s: Shape, m: nat, summarise: Summariser<E>)
    requires SummariesHeld(was, t, s, m, summarise)
    ensures SummariesGiven(t, s, m, summarise)
  {
    hide Layer, Nodes;
    forall h: nat, w | 1 <= h <= m && w in Nodes(s) && w in Layer(s, h) ensures GivesSummary(t, w, summarise) {
      assert HoldsSummary(was, t, w, summarise);
    }
  }

  lemma SettledHolds<E>(was: Texts, t: Texts, s: Shape, m: nat, summarise: Summariser<E>)
    requires SettledUpTo(was, t, s, m, summarise)
    ensures SummariesHeld(was, t, s, m, summarise)
  {
    hide Layer, KidTexts, Nodes;
    forall h: nat, w | 1 <= h <= m && w in Nodes(s) && w in Layer(s, h) ensures HoldsSummary(was, t, w, summarise) {
      assert SettledAt(was, t, s, m, w, summarise);
      if w.children != [] && forall c :: c in w.children ==> TextOf(t, c) != "" {
        KidTextsFull(t, w.children);
      }
    }
  }

  /** The texts differ at most on layer k. */
  ghost predicate SameBut(t: Texts, t': Texts, s: Shape, k: nat) {
    forall w :: w in Nodes(s) && w !in Layer(s, k) ==> TextOf(t, w) == TextOf(t', w)
  }

  lemma AnswerSame<E>(t: Texts, t': Texts, s: Shape, h: nat, k: nat, w: PsiNode, summarise: Summariser<E>)
    requires Proper(s) && InHeap(s) && w in Layer(s, h) && w in Nodes(s) && h <= k && SameBut(t, t', s, k)
    ensures Answer(t, w, summarise) == Answer(t', w, summarise)
  {
    forall c | c in w.children ensures TextOf(t, c) == TextOf(t', c) {
      ChildBelow(s, h, w, c);
    }
    SameKidTexts(t, t', w.children);
  }

  lemma {:induction false} CollectedSame<E>(t: Texts, t': Texts, s: Shape, h: nat, k: nat, nodes: seq<PsiNode>, summarise: Summariser<E>)
    requires Proper(s) && InHeap(s) && h <= k && SameBut(t, t', s, k)
    requires forall w :: w in nodes ==> w in Layer(s, h) && w in Nodes(s)
    ensures Collected(t, nodes, summarise) == Collected(t', nodes, summarise)
    decreases |nodes|
  {
    if nodes != [] {
      CollectedSame(t, t', s, h, k, nodes[..|nodes| - 1], summarise);
      AnswerSame(t, t', s, h, k, nodes[|nodes| - 1], summarise);
    }
  }

  lemma {:induction false} GatheredSame<E>(t: Texts, t': Texts, s: Shape, m: nat, k: nat, n: nat, summarise: Summariser<E>)
    requires Proper(s) && InHeap(s) && m <= k && SameBut(t, t', s, k)
    ensures Gathered(t, s, m, summarise) == Gathered(t', s, m, summarise)
    ensures Ranges(n, t, s, m, summarise) == Ranges(n, t', s, m, summarise)
    decreases m
  {
    hide Layer, Proper, InHeap, SameBut, Collected, Nodes;
    if m > 0 {
      GatheredSame(t, t', s, m - 1, k, n, summarise);
      LayerInside(s, m);
      CollectedSame(t, t', s, m, k, Layer(s, m), summarise);
    }
  }

  lemma OneLayer(s: Shape, h: nat, k: nat, w: PsiNode)
    requires Proper(s) && w in Layer(s, h) && w in Layer(s, k)
    ensures h == k
  {
    var x := Layered(s, h, w);
    ExactlyOneLayer(s, x, k);
  }

  lemma SettledStep<E>(was: Texts, t: Texts, t': Texts, s: Shape, m: nat, summarise: Summariser<E>)
    requires Proper(s) && InHeap(s) && SettledUpTo(was, t, s, m, summarise) && SameBut(t, t', s, m + 1)
    requires forall w :: w in Nodes(s) && w in Layer(s, m + 1) ==>
      TextOf(t', w) == Settled(TextOf(t, w), Answer(t, w, summarise))
    ensures SettledUpTo(was, t', s, m + 1, summarise)
  {
    hide Layer, Proper, InHeap, Answer, Nodes;
    forall w | w in Nodes(s) ensures SettledAt(was, t', s, m + 1, w, summarise) {
      assert SettledAt(was, t, s, m, w, summarise);
      forall h: nat | 1 <= h <= m + 1 && w in Layer(s, h)
        ensures TextOf(t', w) == Settled(TextOf(was, w), Answer(t', w, summarise))
      {
        AnswerSame(t, t', s, h, m + 1, w, summarise);
        if h == m + 1 {
          forall k: nat | 1 <= k <= m ensures w !in Layer(s, k) {
            if w in Layer(s, k) { OneLayer(s, h, k, w); }
          }
        } else if w in Layer(s, m + 1) {
          OneLayer(s, h, m + 1, w);
        }
      }
    }
  }

  lemma {:induction false} NothingAdded<E>(t: Texts, nodes: seq<PsiNode>, summarise: Summariser<E>, w: PsiNode)
    requires Collected(t, nodes, summarise) == [] && w in nodes
    ensures Answer(t, w, summarise) == None
    decreases |nodes|
  {
    if w != nodes[|nodes| - 1] {
      NothingAdded(t, nodes[..|nodes| - 1], summarise, w);
    }
  }

  // ------------------------------------------------- when every summary succeeds

  /** Every summary succeeds and is not empty. */
  ghost predicate AlwaysSucceeds<E(!new)>(summarise: Summariser<E>) {
    forall index, texts :: summarise(index, texts).Some? && summarise(index, texts).value.text != ""
  }

  ghost predicate LeavesHaveText(t: Texts, s: Shape) {
    forall w :: w in Leaves(s) ==> TextOf(t, w) != ""
  }

  lemma {:induction false} SomeKidText(t: Texts, kids: seq<PsiNode>, c: PsiNode)
    requires c in kids && TextOf(t, c) != ""
    ensures KidTexts(t, kids) != []
    decreases |kids|
  {
    if c != kids[|kids| - 1] {
      SomeKidText(t, kids[..|kids| - 1], c);
    }
  }

  lemma LeafUnlayered(s: Shape, c: PsiNode)
    requires Proper(s) && c in Leaves(s)
    ensures forall k: nat :: c !in Layer(s, k)
  {
    forall k: nat | c in Layer(s, k) ensures false {
      var z := Layered(s, k, c);
      LeafNotInternal(s, z);
    }
  }

  lemma {:induction false} AnswerSome<E(!new)>(was: Texts, t: Texts, s: Shape, m: nat, h: nat, w: PsiNode, summarise: Summariser<E>)
    requires Proper(s) && InHeap(s) && SettledUpTo(was, t, s, m, summarise)
    requires AlwaysSucceeds(summarise) && LeavesHaveText(was, s)
    requires 1 <= h <= m + 1 && w in Layer(s, h) && w in Nodes(s)
    ensures var a := Answer(t, w, summarise); a.Some? && a.value.text != ""
    decreases h
  {
    hide Layer, Proper, InHeap, Nodes, Leaves, Tall, Internals;
    var x := Layered(s, h, w);
    InternalLinked(s, x);
    var c := w.children[0];
    ChildBelow(s, h, w, c);
    assert SettledAt(was, t, s, m, c, summarise);
    if c in Leaves(s) {
      LeafUnlayered(s, c);
    } else {
      var k :| 1 <= k < h && c in Layer(s, k);
      AnswerSome(was, t, s, m, k, c, summarise);
    }
    SomeKidText(t, w.children, c);
  }

  lemma {:induction false} AllCollected<E>(t: Texts, nodes: seq<PsiNode>, summarise: Summariser<E>)
    requires forall w :: w in nodes ==> Answer(t, w, summarise).Some?
    ensures |Collected(t, nodes, summarise)| == |nodes|
    ensures forall i :: 0 <= i < |nodes| ==> Some(Collected(t, nodes, summarise)[i]) == Answer(t, nodes[i], summarise)
    decreases |nodes|
  {
    if nodes != [] {
      AllCollected(t, nodes[..|nodes| - 1], summarise);
    }
  }

  /** When every summary succeeds, a layer above settled ones adds one chunk for each node. */
  lemma LayerComplete<E(!new)>(was: Texts, t: Texts, s: Shape, m: nat, h: nat, summarise: Summariser<E>)
    requires Proper(s) && InHeap(s) && SettledUpTo(was, t, s, m, summarise)
    requires AlwaysSucceeds(summarise) && LeavesHaveText(was, s) && 1 <= h <= m + 1
    ensures |LayerChunks(t, s, h, summarise)| == |Layer(s, h)|
    ensures (forall w :: w in Layer(s, h) ==> w in Nodes(s)) && forall i :: 0 <= i < |Layer(s, h)| ==>
      Some(LayerChunks(t, s, h, summarise)[i]) == Answer(t, Layer(s, h)[i], summarise)
  {
    hide Layer, Proper, InHeap, Nodes, Leaves, Answer, Collected;
    LayerInside(s, h);
    forall w | w in Layer(s, h) ensures Answer(t, w, summarise).Some? {
      AnswerSome(was, t, s, m, h, w, summarise);
    }
    AllCollected(t, Layer(s, h), summarise);
  }

  lemma {:induction false} CollectedAtMost<E>(t: Texts, nodes: seq<PsiNode>, summarise: Summariser<E>)
    ensures |Collected(t, nodes, summarise)| <= |nodes|
    decreases |nodes|
  {
    if nodes != [] {
      CollectedAtMost(t, nodes[..|nodes| - 1], summarise);
    }
  }

  lemma {:induction false} GatheredAtMost<E>(t: Texts, s: Shape, m: nat, summarise: Summariser<E>)
    ensures |Gathered(t, s, m, summarise)| <= LayerTotal(Internals(s), m)
    decreases m
  {
    if m > 0 {
      GatheredAtMost(t, s, m - 1, summarise);
      LayerInside(s, m);
      CollectedAtMost(t, Layer(s, m), summarise);
    }
  }

  lemma {:induction false} GatheredAll<E(!new)>(was: Texts, t: Texts, s: Shape, m: nat, k: nat, summarise: Summariser<E>)
    requires Proper(s) && InHeap(s) && SettledUpTo(was, t, s, k, summarise)
    requires AlwaysSucceeds(summarise) && LeavesHaveText(was, s) && m <= k + 1
    ensures |Gathered(t, s, m, summarise)| == LayerTotal(Internals(s), m)
    decreases m
  {
    if m > 0 {
      GatheredAll(was, t, s, m - 1, k, summarise);
      LayerComplete(was, t, s, k, m, summarise);
    }
  }

  // ------------------------------------------------- the loop

  /** The new texts after a layer are the answers to the old ones. */
  lemma LayerSettles<E>(was: Texts, t: Texts, t': Texts, s: Shape, m: nat, n: nat, summarise: Summariser<E>)
    requires Proper(s) && InHeap(s) && SettledUpTo(was, t, s, m, summarise) && SameBut(t, t', s, m + 1)
    requires forall w :: w in Nodes(s) && w in Layer(s, m + 1) ==>
      TextOf(t', w) == Settled(TextOf(t, w), Answer(t, w, summarise))
    ensures SettledUpTo(was, t', s, m + 1, summarise)
    ensures Gathered(t', s, m + 1, summarise) == Gathered(t, s, m, summarise) + LayerChunks(t, s, m + 1, summarise)
    ensures Ranges(n, t', s, m, summarise) == Ranges(n, t, s, m, summarise)
    ensures Gathered(t', s, m, summarise) == Gathered(t, s, m, summarise)
  {
    hide Layer, Proper, InHeap, Answer, Nodes, Collected, SettledAt, SameBut;
    SettledStep(was, t, t', s, m, summarise);
    GatheredSame(t, t', s, m, m + 1, n, summarise);
    LayerInside(s, m + 1);
    CollectedSame(t, t', s, m + 1, m + 1, Layer(s, m + 1), summarise);
  }

  /** A layer without summaries leaves every text as it was. */
  lemma NothingSettles<E>(t: Texts, t': Texts, s: Shape, m: nat, summarise: Summariser<E>)
    requires SameBut(t, t', s, m) && LayerChunks(t, s, m, summarise) == [] && t.Keys == t'.Keys == Nodes(s)
    requires forall w :: w in Nodes(s) && w in Layer(s, m) ==>
      TextOf(t', w) == Settled(TextOf(t, w), Answer(t, w, summarise))
    ensures t' == t
  {
    forall w | w in Nodes(s) ensures TextOf(t', w) == TextOf(t, w) {
      if w in Layer(s, m) {
        NothingAdded(t, Layer(s, m), summarise, w);
      }
    }
    forall w | w in t ensures t'[w] == t[w] { assert TextOf(t', w) == TextOf(t, w); }
  }

  /** Children of layer h may be read while layer h is written. */
  lemma LayerReadable(s: Shape, h: nat)
    requires Proper(s) && InHeap(s)
    ensures NoRepeats(Layer(s, h)) && Lower(Layer(s, h), Nodes(s))
  {
    LayerOnce(s, h);
    LayerInside(s, h);
    forall w, c | w in Layer(s, h) && c in w.children ensures c in Nodes(s) && c !in Layer(s, h) {
      ChildBelow(s, h, w, c);
    }
  }

  lemma KidsInside(s: Shape)
    ensures NodesOf(s.kids) <= Nodes(s)
  {
  }

  /** One layer: its nodes get their summaries' texts, nothing else changes. */
  method SummariseNext<E>(nodes: seq<PsiNode>, h: nat, summarise: Summariser<E>, ghost s: Shape) returns (added: seq<Chunk<E>>)
    requires Proper(s) && InHeap(s) && nodes == Layer(s, h)
    modifies Nodes(s)`text
    ensures InHeap(s)
    ensures added == LayerChunks(old(TextsNow(Nodes(s))), s, h, summarise)
    ensures SameBut(old(TextsNow(Nodes(s))), TextsNow(Nodes(s)), s, h)
    ensures forall w :: w in Nodes(s) && w in Layer(s, h) ==>
      TextOf(TextsNow(Nodes(s)), w)
      == Settled(TextOf(old(TextsNow(Nodes(s))), w), Answer(old(TextsNow(Nodes(s))), w, summarise))
  {
    LayerReadable(s, h);
    LayerInside(s, h);
    hide Layer, Proper, InHeap, Answer, Collected, Lower, Settled;
    NodesAllocated(s);
    added := SummariseLayer(nodes, summarise, Nodes(s));
    KidsInside(s);
    InHeapFrame(s);
    forall w | w in Nodes(s) && w in Layer(s, h)
      ensures w.text == Settled(old(w.text), Answer(old(TextsNow(Nodes(s))), w, summarise))
    {
      var i :| 0 <= i < |nodes| && nodes[i] == w;
    }
  }

  /** `_build_psi_layers` after the tree is built. `reached` is the last layer materialised. */
  method Materialise<E>(root: PsiNode, chunks: seq<Chunk<E>>, summarise: Summariser<E>, ghost s: Shape)
    returns (out: seq<Chunk<E>>, ranges: seq<Range>, ghost reached: nat)
    requires PsiBuild.Tree(root, s)
    modifies Nodes(s)`text
    ensures var t := TextsNow(Nodes(s));
      && reached <= Tall(s)
      && out == chunks + Gathered(t, s, reached, summarise)
      && ranges == Ranges(|chunks|, t, s, reached, summarise)
      && SettledUpTo(old(TextsNow(Nodes(s))), t, s, reached, summarise)
      && (reached < Tall(s) ==> LayerChunks(t, s, reached + 1, summarise) == [])
    ensures SummariesHeld(old(TextsNow(Nodes(s))), TextsNow(Nodes(s)), s, reached, summarise)
    ensures InHeap(s) && Tiles(ranges, |chunks|, |out|)
  {
    hide SummariesHeld, Layer, Proper, InHeap, Answer, Collected, Nodes, Gathered, Ranges, SettledUpTo, SameBut, LayerChunks, Tiles;
    ghost var was := TextsNow(Nodes(s));
    var layers := CollectLayers(root, s);
    out, ranges, reached := chunks, [(0, |chunks|)], 0;
    MaterialiseStart(was, s, chunks, summarise);
    var h := 1;
    // the keys are exactly 1 to the root's height, so this is the order of the sorted items
    while h in layers
      invariant h == reached + 1 && reached <= Tall(s) && Tiles(ranges, |chunks|, |out|) && InHeap(s)
      invariant out == chunks + Gathered(TextsNow(Nodes(s)), s, reached, summarise)
      invariant ranges == Ranges(|chunks|, TextsNow(Nodes(s)), s, reached, summarise)
      invariant SettledUpTo(was, TextsNow(Nodes(s)), s, reached, summarise)
      decreases Tall(s) - reached
    {
      ghost var t := TextsNow(Nodes(s));
      var start := |out|;
      var added := SummariseNext(layers[h], h, summarise, s);
      ghost var t' := TextsNow(Nodes(s));
      if added == [] {
        NothingSettles(t, t', s, h, summarise);
        break;
      }
      LayerSettles(was, t, t', s, reached, |chunks|, summarise);
      out := out + added;
      RangesNext(t, t', s, reached, chunks, summarise);
      TileMore(ranges, |chunks|, start, |out|);
      ranges := ranges + [(start, |out|)];
      h, reached := h + 1, reached + 1;
    }
    SettledHolds(was, TextsNow(Nodes(s)), s, reached, summarise);
  }

  lemma MaterialiseStart<E>(t: Texts, s: Shape, chunks: seq<Chunk<E>>, summarise: Summariser<E>)
    ensures chunks + Gathered(t, s, 0, summarise) == chunks
    ensures Ranges(|chunks|, t, s, 0, summarise) == [(0, |chunks|)]
    ensures SettledUpTo(t, t, s, 0, summarise) && Tiles([(0, |chunks|)], |chunks|, |chunks|)
  {
  }

  lemma RangesNext<E>(t: Texts, t': Texts, s: Shape, m: nat, chunks: seq<Chunk<E>>, summarise: Summariser<E>)
    requires Gathered(t', s, m + 1, summarise) == Gathered(t, s, m, summarise) + LayerChunks(t, s, m + 1, summarise)
    requires Gathered(t', s, m, summarise) == Gathered(t, s, m, summarise)
    requires Ranges(|chunks|, t', s, m, summarise) == Ranges(|chunks|, t, s, m, summarise)
    ensures Ranges(|chunks|, t', s, m + 1, summarise)
            == Ranges(|chunks|, t, s, m, summarise)
               + [(|chunks + Gathered(t, s, m, summarise)|,
                   |chunks + Gathered(t, s, m, summarise) + LayerChunks(t, s, m + 1, summarise)|)]
    ensures chunks + Gathered(t', s, m + 1, summarise)
            == chunks + Gathered(t, s, m, summarise) + LayerChunks(t, s, m + 1, summarise)
  {
    hide Gathered, LayerChunks;
  }

  /** At most one chunk for each internal node, so fewer than there are leaves; and when every
      summary succeeds all of them, the last layer being the root alone. */
  lemma MaterialisedSizes<E(!new)>(was: Texts, t: Texts, s: Shape, reached: nat, n: nat, summarise: Summariser<E>)
    requires Proper(s) && Bushy(s) && InHeap(s) && reached <= Tall(s)
    requires SettledUpTo(was, t, s, reached, summarise)
    requires reached < Tall(s) ==> LayerChunks(t, s, reached + 1, summarise) == []
    ensures |Gathered(t, s, reached, summarise)| <= InternalCount(s) <= |Leaves(s)| - 1
    ensures AlwaysSucceeds(summarise) && LeavesHaveText(was, s) ==>
      && reached == Tall(s)
      && |Gathered(t, s, reached, summarise)| == InternalCount(s)
      && (s.kids != [] ==> var r := Ranges(n, t, s, reached, summarise); r[|r| - 1].1 == r[|r| - 1].0 + 1)
      && forall k :: 1 <= k <= reached ==> |LayerChunks(t, s, k, summarise)| == |Layer(s, k)|
  {
    hide Layer, Proper, InHeap, Answer, Collected, Nodes, LayerChunks, SettledUpTo, Bushy, Leaves, Internals, InternalCount;
    FewInternals(s);
    LayersHoldAll(s, reached);
    GatheredAtMost(t, s, reached, summarise);
    if AlwaysSucceeds(summarise) && LeavesHaveText(was, s) {
      if reached < Tall(s) {
        LayerComplete(was, t, s, reached, reached + 1, summarise);
        LayersFilled(s, reached + 1);
      }
      forall k: nat | 1 <= k <= reached ensures |LayerChunks(t, s, k, summarise)| == |Layer(s, k)| {
        LayerComplete(was, t, s, reached, k, summarise);
      }
      GatheredAll(was, t, s, reached, reached, summarise);
      TopLayer(s, reached);
    }
  }
}
