/** `__call__`: filters the chunks and runs one of the two tree builders. */
module RaptorCall {
  import opened Options
  import opened RaptorChunks
  import opened LayerRanges
  import opened RaptorLabels
  import opened RaptorClassic
  import M = PsiMaterialise
  import opened PsiNodes
  import G = PsiGrowth
  import S = PsiStructure
  import T = PsiRebalance

  /** An incoming chunk; the embedding is None when it is missing or empty. */
  datatype Incoming<+E> = Incoming(text: string, embedding: Option<E>)

  datatype Builder<!E> =
    | Psi(cfg: G.Settings, maxCluster: int, answer: M.Summariser<E>)
    | Classic(clustering: Clustering<E>, summariser: Summariser<E>)

  ghost predicate Configured<E(!new)>(b: Builder<E>) {
    match b
    case Psi(cfg, _, _) => G.Usable(cfg)
    case Classic(clustering, summariser) => Sound(clustering) && Complete(summariser)
  }

  predicate Usable<E>(c: Incoming<E>) {
    c.text != "" && c.embedding.Some?
  }

  /** The usable chunks in their order. */
  ghost function Kept<E>(raw: seq<Incoming<E>>): (r: seq<Chunk<E>>)
    ensures |r| <= |raw| && forall i :: 0 <= i < |r| ==> r[i].text != ""
  {
    if raw == [] then [] else
    var last := raw[|raw| - 1];
    Kept(raw[..|raw| - 1]) + if Usable(last) then [Chunk(last.text, last.embedding.value)] else []
  }

  lemma {:induction false} KeptAppend<E>(a: seq<Incoming<E>>, b: seq<Incoming<E>>)
    ensures Kept(a + b) == Kept(a) + Kept(b)
    decreases |b|
  {
    if b == [] {
      assert a + b == a;
    } else {
      var front, last := b[..|b| - 1], b[|b| - 1];
      assert (a + b)[..|a + b| - 1] == a + front && (a + b)[|a + b| - 1] == last;
      KeptAppend(a, front);
    }
  }

  /** A chunk is kept, as it is, exactly when it has a text and an embedding. */
  lemma KeptOne<E>(c: Incoming<E>)
    ensures c.text == "" || c.embedding == None ==> Kept([c]) == []
    ensures c.text != "" && c.embedding.Some? ==> Kept([c]) == [Chunk(c.text, c.embedding.value)]
  {
    assert [c][..0] == [];
    assert Kept<E>([]) == [];
  }

  method KeepUsable<E>(raw: seq<Incoming<E>>) returns (chunks: seq<Chunk<E>>)
    ensures chunks == Kept(raw)
  {
    chunks := [];
    for i := 0 to |raw|
      invariant chunks == Kept(raw[..i])
    {
      assert raw[..i + 1][..i] == raw[..i];
      if Usable(raw[i]) {
        chunks := chunks + [Chunk(raw[i].text, raw[i].embedding.value)];
      }
    }
    assert raw[..|raw|] == raw;
  }

  /** The tree behind a result: the finished one, its leaves, and how it was built. */
  datatype PsiTree = PsiTree(shape: Shape, leaves: seq<PsiNode>, growth: G.Growth)

  /** The result is the chunks with the summaries of the tree's layers, and the tree is the one
      that the settings and the limit on children give. */
  ghost predicate Summarised<E>(chunks: seq<Chunk<E>>, builder: Builder<E>, out: seq<Chunk<E>>, ranges: seq<Range>, t: PsiTree)
    requires builder.Psi? && G.Usable(builder.cfg)
    reads Nodes(t.shape)
  {
    var texts, limit := M.TextsNow(Nodes(t.shape)), T.Limit(builder.maxCluster);
    && |t.leaves| == |chunks| && multiset(Leaves(t.shape)) == multiset(t.leaves)
    && (forall i :: 0 <= i < |chunks| ==> t.leaves[i].index == i && M.TextOf(texts, t.leaves[i]) == chunks[i].text)
    && InHeap(t.shape) && Proper(t.shape) && Bushy(t.shape) && T.Fan(t.shape, limit)
    && G.Grows(builder.cfg, t.growth) && t.growth.inputs == G.LeafShapes(t.leaves) && S.Finished(t.shape, t.growth.tree, limit)
    && S.RankedNodes(t.shape, t.leaves, builder.cfg) && S.BucketNodes(t.shape, t.leaves, builder.cfg, t.growth)
    && |ranges| > 0
    && out == chunks + M.Gathered(texts, t.shape, |ranges| - 1, builder.answer)
    && ranges == M.Ranges(|chunks|, texts, t.shape, |ranges| - 1, builder.answer)
    && M.SummariesGiven(texts, t.shape, |ranges| - 1, builder.answer)
  }

  /** Fewer than two chunks give nothing at all. Otherwise the usable chunks are an unchanged
      prefix of the result, which the ranges tile. Only the classic builder raises, and exactly
      when a layer that its loop reaches is refused. */
  method Call<E(!new)>(raw: seq<Incoming<E>>, builder: Builder<E>) returns (r: Result<(seq<Chunk<E>>, seq<Range>)>, ghost tree: Option<PsiTree>)
    requires Configured(builder)
    ensures |raw| <= 1 ==> r == Ok(([], []))
    ensures |raw| > 1 && |Kept(raw)| <= 1 ==> r == Ok((Kept(raw), [(0, |Kept(raw)|)]))
    ensures |raw| > 1 && r.Ok? ==> Kept(raw) <= r.value.0 && Tiles(r.value.1, |Kept(raw)|, |r.value.0|)
    ensures builder.Psi? && |raw| > 1 && |Kept(raw)| > 1 ==>
      r.Ok? && tree.Some? && Summarised(Kept(raw), builder, r.value.0, r.value.1, tree.value)
    ensures builder.Psi? ==> r.Ok? && |r.value.0| <= 2 * |Kept(raw)|
    ensures builder.Classic? && |raw| > 1 && |Kept(raw)| > 1 ==>
      && (forall e :: r == Raised(e) <==> Fails(Kept(raw), builder.clustering, builder.summariser, e))
      && (r.Ok? ==> Reached(Kept(raw), r.value.0, r.value.1, builder.clustering, builder.summariser))
      && (r.Ok? ==> Finished(r.value.0, r.value.1, builder.clustering, builder.summariser))
    ensures builder.Classic? && builder.clustering.ahc ==> r.Ok?
    ensures builder.Psi? && |raw| > 1 && |Kept(raw)| > 1 && M.AlwaysSucceeds(builder.answer) ==>
      Size(r.value.1[|r.value.1| - 1]) == 1
    ensures builder.Classic? && |raw| > 1 && |Kept(raw)| > 1 && r.Ok? && AlwaysSome(builder.summariser) ==>
      Size(r.value.1[|r.value.1| - 1]) <= 1
  {
    hide Sound, Complete, Kept, M.AlwaysSucceeds, AlwaysSome, Steps, Finished, Size, Fails, S.Finished, S.RankedNodes, S.BucketNodes,
      G.Grows, G.Usable, InHeap, Proper, Bushy, T.Fan, M.Gathered, M.Ranges, M.SummariesGiven, Nodes, Leaves;
    tree := None;
    if |raw| <= 1 {
      r := Ok(([], []));
      return;
    }
    var chunks := KeepUsable(raw);
    if |chunks| <= 1 {
      TilesStart(|chunks|);
      r := Ok((chunks, [(0, |chunks|)]));
      return;
    }
    match builder
    case Psi(cfg, maxCluster, answer) =>
      var out, ranges;
      ghost var shape, leaves, growth;
      out, ranges, shape, leaves, growth := S.BuildLayers(chunks, cfg, maxCluster, answer);
      tree := Some(PsiTree(shape, leaves, growth));
      LastSize(ranges);
      r := Ok((out, ranges));
    case Classic(clustering, summariser) =>
      r := BuildClassic(chunks, clustering, summariser);
      if r.Ok? && AlwaysSome(summariser) {
        EndsAtOneChunk(r.value.0, r.value.1, clustering, summariser);
      }
      if r.Raised? && clustering.ahc {
        AhcNeverFails(chunks, clustering, summariser, r.error);
      }
  }

  lemma LastSize(ranges: seq<Range>)
    requires ranges != []
    ensures ranges[|ranges| - 1].1 == ranges[|ranges| - 1].0 + 1 ==> Size(ranges[|ranges| - 1]) == 1
  {
  }
}
