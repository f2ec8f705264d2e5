/** The classic loop of `__call__`: cluster a layer, summarise every cluster, repeat. */
module RaptorClassic {
  import opened Options
  import opened RaptorChunks
  import opened RaptorLabels
  import opened LayerRanges

  // ------------------------------------------------- clusters of a layer

  /** Positions a to b - 1 are split into clusters: none empty, each increasing, every
      position in exactly one. */
  ghost predicate Clustered(clusters: seq<seq<nat>>, a: nat, b: nat) {
    && (forall c :: 0 <= c < |clusters| ==> clusters[c] != [] && Rising(clusters[c]))
    && Within(clusters, a, b)
    && (forall p: nat :: a <= p < b ==> Covered(clusters, p))
    && (forall c, d, p :: 0 <= c < d < |clusters| && p in clusters[c] ==> p !in clusters[d])
  }

  ghost predicate Within(clusters: seq<seq<nat>>, a: nat, b: nat) {
    forall c, i :: 0 <= c < |clusters| && 0 <= i < |clusters[c]| ==> a <= clusters[c][i] < b
  }

  ghost predicate Covered(clusters: seq<seq<nat>>, p: nat) {
    exists c :: 0 <= c < |clusters| && p in clusters[c]
  }

  /** The positions labelled c, counted from start. */
  ghost function MembersOf(labels: seq<nat>, c: nat, start: nat): (ps: seq<nat>)
    ensures Rising(ps) && forall p: nat :: p in ps <==> start <= p < start + |labels| && labels[p - start] == c
  {
    if labels == [] then [] else
    var last := |labels| - 1;
    var front := MembersOf(labels[..last], c, start);
    assert forall j :: 0 <= j < |front| ==> front[j] in front;
    if labels[last] == c then front + [start + last] else front
  }

  /** `[i + start for i in range(len(lbls)) if lbls[i] == c]`. */
  method Members(labels: seq<nat>, c: nat, start: nat) returns (ps: seq<nat>)
    ensures ps == MembersOf(labels, c, start)
  {
    ps := [];
    for i := 0 to |labels|
      invariant ps == MembersOf(labels[..i], c, start)
    {
      assert labels[..i + 1][..i] == labels[..i];
      if labels[i] == c {
        ps := ps + [i + start];
      }
    }
    assert labels[..|labels|] == labels;
  }

  ghost function Split(labels: seq<nat>, n: nat, start: nat): (clusters: seq<seq<nat>>)
    ensures |clusters| == n && forall c :: 0 <= c < n ==> clusters[c] == MembersOf(labels, c, start)
  {
    seq(n, c requires 0 <= c => MembersOf(labels, c, start))
  }

  /** Labels that use every number below n split the positions. */
  lemma SplitClustered(labels: seq<nat>, n: nat, start: nat)
    requires Below(labels, |labels|, n) && Onto(labels, n)
    ensures Clustered(Split(labels, n, start), start, start + |labels|)
  {
    var clusters := Split(labels, n, start);
    forall c | 0 <= c < n ensures clusters[c] != [] && Rising(clusters[c]) {
      assert c in labels;
      var i :| 0 <= i < |labels| && labels[i] == c;
      assert i + start in clusters[c];
    }
    forall p: nat | start <= p < start + |labels| ensures Covered(clusters, p) {
      assert p in clusters[labels[p - start]];
    }
    forall c, i | 0 <= c < |clusters| && 0 <= i < |clusters[c]|
      ensures start <= clusters[c][i] < start + |labels|
    {
      assert clusters[c][i] in clusters[c];
    }
  }

  /** The clusters of a labelled layer; an empty one fails the assertion. */
  method SplitLayer(labels: seq<nat>, n: nat, start: nat) returns (r: Result<seq<seq<nat>>>)
    requires Below(labels, |labels|, n)
    ensures r == if Onto(labels, n) then Ok(Split(labels, n, start)) else Raised(EmptyCluster)
    ensures r.Ok? ==> Clustered(r.value, start, start + |labels|)
    ensures r.Ok? ==> forall c, i :: 0 <= c < n && 0 <= i < |labels| ==> (i + start in r.value[c] <==> labels[i] == c)
  {
    var clusters: seq<seq<nat>> := [];
    for c := 0 to n
      invariant |clusters| == c && (forall d: nat :: d < c ==> d in labels)
      invariant forall d :: 0 <= d < c ==> clusters[d] == MembersOf(labels, d, start)
    {
      var members := Members(labels, c, start);
      if members == [] {
        forall i | 0 <= i < |labels| ensures labels[i] != c { assert i + start !in members; }
        assert c !in labels;
        return Raised(EmptyCluster);
      }
      assert members[0] in members;
      clusters := clusters + [members];
    }
    assert clusters == Split(labels, n, start);
    SplitClustered(labels, n, start);
    return Ok(clusters);
  }

  /** The clusters of a layer that starts at a position: two items are one pair; more are
      split by their labels. */
  ghost function ClustersOf<E(!new)>(layer: seq<Chunk<E>>, start: nat, cfg: Clustering<E>): Result<seq<seq<nat>>>
    requires Sound(cfg) && |layer| >= 2
  {
    if |layer| == 2 then Ok([[start, start + 1]]) else
    var labelled := LabelsOf(layer, cfg);
    if labelled.Raised? then Raised(labelled.error) else
    var (labels, n) := labelled.value;
    if Onto(labels, n) then Ok(Split(labels, n, start)) else Raised(EmptyCluster)
  }

  lemma PairClustered(start: nat)
    ensures Clustered([[start, start + 1]], start, start + 2)
  {
    var clusters: seq<seq<nat>> := [[start, start + 1]];
    assert clusters[0][0] == start && clusters[0][1] == start + 1;
    forall p: nat | start <= p < start + 2 ensures Covered(clusters, p) { assert p in clusters[0]; }
  }

  /** The clusters are a split of the layer into fewer parts than it has chunks. */
  lemma ClustersFit<E(!new)>(layer: seq<Chunk<E>>, start: nat, cfg: Clustering<E>)
    requires Sound(cfg) && |layer| >= 2 && ClustersOf(layer, start, cfg).Ok?
    ensures var clusters := ClustersOf(layer, start, cfg).value;
      1 <= |clusters| < |layer| && Clustered(clusters, start, start + |layer|)
  {
    hide Sound, LabelsOf, Clustered, MembersOf;
    if |layer| == 2 {
      PairClustered(start);
    } else {
      LabelsFit(layer, cfg);
      var (labels, n) := LabelsOf(layer, cfg).value;
      SplitClustered(labels, n, start);
    }
  }

  /** Which chunks of a layer come together: a pair always; by the agglomerative method those
      with one label; by the mixture those with one first component above the threshold. */
  lemma ClustersByLabels<E(!new)>(layer: seq<Chunk<E>>, start: nat, cfg: Clustering<E>, c: nat, i: nat)
    requires Sound(cfg) && |layer| >= 3 && ClustersOf(layer, start, cfg).Ok? && i < |layer|
    requires c < |ClustersOf(layer, start, cfg).value|
    ensures LabelsOf(layer, cfg).Ok? && |LabelsOf(layer, cfg).value.0| == |layer|
    ensures start + i in ClustersOf(layer, start, cfg).value[c] <==> LabelsOf(layer, cfg).value.0[i] == c
    ensures |ClustersOf(layer, start, cfg).value| == LabelsOf(layer, cfg).value.1
  {
    hide Sound, LabelsOf, Onto, MembersOf;
    LabelsFit(layer, cfg);
    var (labels, n) := LabelsOf(layer, cfg).value;
    assert ClustersOf(layer, start, cfg).value[c] == MembersOf(labels, c, start);
  }

  /** A layer raises exactly for the reasons of `Refused`, and with that error. */
  lemma ClustersRaise<E(!new)>(layer: seq<Chunk<E>>, start: nat, cfg: Clustering<E>, e: Failure)
    requires Sound(cfg) && |layer| >= 2
    ensures ClustersOf(layer, start, cfg) == Raised(e) <==> Refused(layer, cfg, e)
  {
    hide Sound, LabelsOf, Split, Onto, Refused;
    if |layer| == 2 {
      PairAccepted(layer, cfg, e);
    } else {
      LabelsRaise(layer, cfg, e);
      if LabelsOf(layer, cfg).Ok? {
        LabelsMiss(layer, cfg);
      } else {
        var first := LabelsOf(layer, cfg).error;
        LabelsRaise(layer, cfg, first);
        if Refused(layer, cfg, e) {
          OneRefusal(layer, cfg, first, e);
        }
      }
    }
  }

  lemma PairAccepted<E>(layer: seq<Chunk<E>>, cfg: Clustering<E>, e: Failure)
    requires |layer| == 2
    ensures !Refused(layer, cfg, e)
  {
  }

  /** A layer is refused for one reason only. */
  lemma OneRefusal<E>(layer: seq<Chunk<E>>, cfg: Clustering<E>, e: Failure, f: Failure)
    requires Refused(layer, cfg, e) && Refused(layer, cfg, f)
    ensures e == f
  {
    hide Used, AllExceed;
    if n: nat :| Best(layer, cfg, n) {
      BestIsOptimal(layer, cfg, n);
      BestOnly(layer, cfg, n);
    }
  }

  /** Clusters of the current layer, by either method or as one pair. */
  method ClusterLayer<E(!new)>(layer: seq<Chunk<E>>, start: nat, cfg: Clustering<E>) returns (r: Result<seq<seq<nat>>>)
    requires Sound(cfg) && |layer| >= 2
    ensures r == ClustersOf(layer, start, cfg)
    ensures forall e :: r == Raised(e) <==> Refused(layer, cfg, e)
    ensures r.Ok? ==> 1 <= |r.value| < |layer| && Clustered(r.value, start, start + |layer|)
  {
    hide Sound, LabelsOf, Clustered, Refused, Split, MembersOf, Onto;
    forall e ensures ClustersOf(layer, start, cfg) == Raised(e) <==> Refused(layer, cfg, e) {
      ClustersRaise(layer, start, cfg, e);
    }
    if ClustersOf(layer, start, cfg).Ok? {
      ClustersFit(layer, start, cfg);
    }
    if |layer| == 2 {
      return Ok([[start, start + 1]]);
    }
    var labelled := LabelLayer(layer, cfg);
    if labelled.Raised? {
      return Raised(labelled.error);
    }
    LabelsFit(layer, cfg);
    r := SplitLayer(labelled.value.0, labelled.value.1, start);
  }

  // ------------------------------------------------- summaries of a layer

  /** What the models answer for a cluster (its positions and their texts), and the order in
      which the tasks of a layer finish. */
  datatype Summariser<!E> = Summariser(
    answer: (seq<nat>, seq<string>) -> Option<Chunk<E>>,
    finished: seq<seq<nat>> -> seq<seq<nat>>)

  /** Every task finishes once. */
  ghost predicate Complete<E(!new)>(s: Summariser<E>) {
    forall clusters :: multiset(s.finished(clusters)) == multiset(clusters)
  }

  /** The texts of the chunks at the listed positions, in order. */
  function TextsAt<E>(chunks: seq<Chunk<E>>, ps: seq<nat>): (texts: seq<string>)
    requires forall i :: 0 <= i < |ps| ==> ps[i] < |chunks|
    ensures |texts| == |ps| && forall i :: 0 <= i < |ps| ==> texts[i] == chunks[ps[i]].text
  {
    seq(|ps|, i requires 0 <= i < |ps| => chunks[ps[i]].text)
  }

  /** The successful summaries of the clusters, in this order. */
  ghost function Summaries<E>(chunks: seq<Chunk<E>>, clusters: seq<seq<nat>>, s: Summariser<E>): (r: seq<Chunk<E>>)
    requires Within(clusters, 0, |chunks|)
    ensures |r| <= |clusters|
  {
    if clusters == [] then [] else
    var last := s.answer(clusters[|clusters| - 1], TextsAt(chunks, clusters[|clusters| - 1]));
    Summaries(chunks, clusters[..|clusters| - 1], s) + if last.Some? then [last.value] else []
  }

  lemma {:induction false} SummariesAppend<E>(chunks: seq<Chunk<E>>, a: seq<seq<nat>>, b: seq<seq<nat>>, s: Summariser<E>)
    requires Within(a, 0, |chunks|) && Within(b, 0, |chunks|)
    ensures Within(a + b, 0, |chunks|)
    ensures Summaries(chunks, a + b, s) == Summaries(chunks, a, s) + Summaries(chunks, b, s)
    decreases |b|
  {
    if b == [] {
      assert a + b == a;
    } else {
      var front, last := b[..|b| - 1], b[|b| - 1];
      assert (a + b)[..|a + b| - 1] == a + front && (a + b)[|a + b| - 1] == last;
      SummariesAppend(chunks, a, front, s);
    }
  }

  /** A cluster adds the answer to exactly the texts of its chunks, if there is one. */
  lemma SummariesOne<E>(chunks: seq<Chunk<E>>, cluster: seq<nat>, s: Summariser<E>, texts: seq<string>)
    requires |texts| == |cluster| && forall i :: 0 <= i < |cluster| ==> cluster[i] < |chunks| && texts[i] == chunks[cluster[i]].text
    ensures Within([cluster], 0, |chunks|)
    ensures Summaries(chunks, [cluster], s)
            == if s.answer(cluster, texts).Some? then [s.answer(cluster, texts).value] else []
  {
    assert texts == TextsAt(chunks, cluster);
    assert [cluster][..0] == [];
    assert Summaries(chunks, [], s) == [];
  }

  /** A summary for every cluster that has one. */
  ghost predicate Succeeds<E>(chunks: seq<Chunk<E>>, cluster: seq<nat>, s: Summariser<E>) {
    && (forall i :: 0 <= i < |cluster| ==> cluster[i] < |chunks|)
    && s.answer(cluster, TextsAt(chunks, cluster)).Some?
  }

  lemma {:induction false} NoSummaries<E>(chunks: seq<Chunk<E>>, clusters: seq<seq<nat>>, s: Summariser<E>)
    requires Within(clusters, 0, |chunks|)
    ensures Summaries(chunks, clusters, s) == [] <==> forall c :: c in clusters ==> !Succeeds(chunks, c, s)
    decreases |clusters|
  {
    if clusters != [] {
      var front, last := clusters[..|clusters| - 1], clusters[|clusters| - 1];
      NoSummaries(chunks, front, s);
      assert clusters == front + [last];
      assert forall c :: c in clusters <==> c in front || c == last;
      assert forall i :: 0 <= i < |last| ==> last[i] < |chunks|;
      assert Succeeds(chunks, last, s) <==> s.answer(last, TextsAt(chunks, last)).Some?;
    }
  }

  lemma SameWithin<E>(chunks: seq<Chunk<E>>, clusters: seq<seq<nat>>, order: seq<seq<nat>>, n: nat)
    requires Within(clusters, 0, n) && multiset(order) == multiset(clusters)
    ensures Within(order, 0, n) && |order| == |clusters|
    ensures forall c :: c in order <==> c in clusters
  {
    assert |multiset(order)| == |order| && |multiset(clusters)| == |clusters|;
    forall c ensures c in order <==> c in clusters { assert c in multiset(order) <==> c in multiset(clusters); }
    forall c, i | 0 <= c < |order| && 0 <= i < |order[c]| ensures order[c][i] < n {
      assert order[c] in clusters;
    }
  }

  /** The summaries of one layer, in the order in which the tasks finish. */
  ghost function LayerSummaries<E(!new)>(chunks: seq<Chunk<E>>, clusters: seq<seq<nat>>, s: Summariser<E>): (r: seq<Chunk<E>>)
    requires Within(clusters, 0, |chunks|) && Complete(s)
    ensures |r| <= |clusters|
  {
    SameWithin(chunks, clusters, s.finished(clusters), |chunks|);
    Summaries(chunks, s.finished(clusters), s)
  }

  /** The summarising tasks of one layer; each appends when it finishes with success. Every
      task reads chunks that were there before the layer. */
  method SummariseClusters<E(!new)>(chunks: seq<Chunk<E>>, clusters: seq<seq<nat>>, s: Summariser<E>)
    returns (out: seq<Chunk<E>>)
    requires Within(clusters, 0, |chunks|) && Complete(s)
    ensures out == chunks + LayerSummaries(chunks, clusters, s)
  {
    var order := s.finished(clusters);
    SameWithin(chunks, clusters, order, |chunks|);
    out := chunks;
    for c := 0 to |order|
      invariant chunks <= out && out == chunks + Summaries(chunks, order[..c], s)
    {
      assert order[..c + 1][..c] == order[..c];
      assert TextsAt(out, order[c]) == TextsAt(chunks, order[c]);
      var result := s.answer(order[c], TextsAt(out, order[c]));
      if result.Some? {
        out := out + [result.value];
      }
    }
    assert order[..|order|] == order;
  }

  // ------------------------------------------------- the loop

  /** The chunks of a layer. */
  function LayerAt<E>(out: seq<Chunk<E>>, a: Range): seq<Chunk<E>> {
    if a.0 <= a.1 <= |out| then out[a.0..a.1] else []
  }

  ghost predicate Splits<E(!new)>(out: seq<Chunk<E>>, a: Range, cfg: Clustering<E>)
    requires Sound(cfg)
  {
    a.0 + 2 <= a.1 <= |out| && ClustersOf(LayerAt(out, a), a.0, cfg).Ok?
  }

  /** What the clusters of layer a are summarised to. */
  ghost function SummariesOf<E(!new)>(out: seq<Chunk<E>>, a: Range, cfg: Clustering<E>, s: Summariser<E>): seq<Chunk<E>>
    requires Sound(cfg) && Complete(s) && Splits(out, a, cfg)
  {
    ClustersFit(LayerAt(out, a), a.0, cfg);
    var clusters := ClustersOf(LayerAt(out, a), a.0, cfg).value;
    ClusteredWithin(clusters, a.0, a.1);
    LayerSummaries(out[..a.1], clusters, s)
  }

  /** Layer b holds the successful summaries of the clusters of layer a, at least one. */
  ghost predicate Step<E(!new)>(out: seq<Chunk<E>>, a: Range, b: Range, cfg: Clustering<E>, s: Summariser<E>)
    requires Sound(cfg) && Complete(s)
  {
    && Next(a, b) && b.1 <= |out| && Splits(out, a, cfg)
    && LayerAt(out, b) == SummariesOf(out, a, cfg, s)
  }

  ghost predicate Steps<E(!new)>(out: seq<Chunk<E>>, ranges: seq<Range>, cfg: Clustering<E>, s: Summariser<E>)
    requires Sound(cfg) && Complete(s)
  {
    forall k :: 0 < k < |ranges| ==> Step(out, ranges[k - 1], ranges[k], cfg, s)
  }

  /** The clusters of the layer yield no summary at all. */
  ghost predicate Stuck<E(!new)>(out: seq<Chunk<E>>, a: Range, cfg: Clustering<E>, s: Summariser<E>)
    requires Sound(cfg) && Complete(s)
  {
    Splits(out, a, cfg) && SummariesOf(out, a, cfg, s) == []
  }

  /** What the loop can have made from the chunks. */
  ghost predicate Reached<E(!new)>(chunks: seq<Chunk<E>>, out: seq<Chunk<E>>, ranges: seq<Range>, cfg: Clustering<E>, s: Summariser<E>)
    requires Sound(cfg) && Complete(s)
  {
    chunks <= out && Tiles(ranges, |chunks|, |out|) && Steps(out, ranges, cfg, s)
  }

  function Last(ranges: seq<Range>): Range
    requires ranges != []
  {
    ranges[|ranges| - 1]
  }

  /** The loop has nothing more to do. */
  ghost predicate Finished<E(!new)>(out: seq<Chunk<E>>, ranges: seq<Range>, cfg: Clustering<E>, s: Summariser<E>)
    requires Sound(cfg) && Complete(s) && ranges != []
  {
    Size(Last(ranges)) <= 1 || Stuck(out, Last(ranges), cfg, s)
  }

  /** Some layer that the loop reaches is refused with this error. */
  ghost predicate Fails<E(!new)>(chunks: seq<Chunk<E>>, cfg: Clustering<E>, s: Summariser<E>, e: Failure)
    requires Sound(cfg) && Complete(s)
  {
    exists out: seq<Chunk<E>>, ranges: seq<Range> :: FailsAt(chunks, out, ranges, cfg, s, e)
  }

  ghost predicate FailsAt<E(!new)>(chunks: seq<Chunk<E>>, out: seq<Chunk<E>>, ranges: seq<Range>, cfg: Clustering<E>, s: Summariser<E>, e: Failure)
    requires Sound(cfg) && Complete(s)
  {
    && Reached(chunks, out, ranges, cfg, s) && ranges != []
    && Refused(LayerAt(out, Last(ranges)), cfg, e)
  }

  lemma ClusteredWithin(clusters: seq<seq<nat>>, a: nat, b: nat)
    requires Clustered(clusters, a, b)
    ensures Within(clusters, 0, b)
  {
  }

  /** A step looks at the chunks up to its end alone. */
  lemma StepLocal<E(!new)>(out: seq<Chunk<E>>, other: seq<Chunk<E>>, a: Range, b: Range, cfg: Clustering<E>, s: Summariser<E>)
    requires Sound(cfg) && Complete(s) && Step(out, a, b, cfg, s)
    requires b.1 <= |other| && other[..b.1] == out[..b.1]
    ensures Step(other, a, b, cfg, s)
  {
    hide Sound, Complete, ClustersOf, LayerSummaries;
    assert LayerAt(other, b) == LayerAt(out, b) by {
      assert other[..b.1][b.0..b.1] == other[b.0..b.1] && out[..b.1][b.0..b.1] == out[b.0..b.1];
    }
    SplitsLocal(out, other, a, b.1, cfg, s);
  }

  lemma SplitsLocal<E(!new)>(out: seq<Chunk<E>>, other: seq<Chunk<E>>, a: Range, n: nat, cfg: Clustering<E>, s: Summariser<E>)
    requires Sound(cfg) && Complete(s) && Splits(out, a, cfg)
    requires a.1 <= n <= |other| && n <= |out| && other[..n] == out[..n]
    ensures Splits(other, a, cfg) && SummariesOf(other, a, cfg, s) == SummariesOf(out, a, cfg, s)
  {
    hide Sound, Complete, ClustersOf, LayerSummaries;
    assert out[..n][..a.1] == out[..a.1] && other[..n][..a.1] == other[..a.1];
    assert out[..a.1][a.0..a.1] == out[a.0..a.1] && other[..a.1][a.0..a.1] == other[a.0..a.1];
  }

  lemma StepsMore<E(!new)>(out: seq<Chunk<E>>, ranges: seq<Range>, added: seq<Chunk<E>>, cfg: Clustering<E>, s: Summariser<E>)
    requires Sound(cfg) && Complete(s)
    requires ranges != [] && Last(ranges).1 == |out| && Tiles(ranges, ranges[0].1, |out|) && Steps(out, ranges, cfg, s)
    requires Splits(out, Last(ranges), cfg) && added == SummariesOf(out, Last(ranges), cfg, s) && added != []
    ensures Steps(out + added, ranges + [(|out|, |out + added|)], cfg, s)
  {
    hide Sound, Complete, SummariesOf, Splits;
    var more := out + added;
    var newest: Range := (|out|, |more|);
    var ranges' := ranges + [newest];
    assert more[..|out|] == out && more[|out|..|more|] == added && out[..|out|] == out;
    forall k | 0 < k < |ranges'| ensures Step(more, ranges'[k - 1], ranges'[k], cfg, s) {
      if k < |ranges| {
        EndsBefore(ranges, ranges[0].1, |out|, k);
        assert more[..ranges[k].1] == out[..ranges[k].1];
        StepLocal(out, more, ranges[k - 1], ranges[k], cfg, s);
      } else {
        SplitsLocal(out, more, Last(ranges), |out|, cfg, s);
      }
    }
  }

  /** A layer is smaller than the one it summarises. */
  lemma StepShrinks<E(!new)>(out: seq<Chunk<E>>, a: Range, b: Range, cfg: Clustering<E>, s: Summariser<E>)
    requires Sound(cfg) && Complete(s) && Step(out, a, b, cfg, s)
    ensures 0 < Size(b) < Size(a)
  {
    hide Sound, Complete, ClustersOf, Clustered;
    ClustersFit(LayerAt(out, a), a.0, cfg);
  }

  /** Each layer has fewer chunks than the one before, so there are at most n of them. */
  lemma {:induction false} LayersShrink<E(!new)>(out: seq<Chunk<E>>, ranges: seq<Range>, cfg: Clustering<E>, s: Summariser<E>, n: nat, k: nat)
    requires Sound(cfg) && Complete(s)
    requires Steps(out, ranges, cfg, s) && k < |ranges| && ranges[0] == (0, n)
    ensures Size(ranges[k]) <= n - k
    ensures 0 < k ==> 0 < Size(ranges[k]) < Size(ranges[k - 1])
    decreases k
  {
    hide Sound, Complete, Step;
    if k > 0 {
      LayersShrink(out, ranges, cfg, s, n, k - 1);
      StepShrinks(out, ranges[k - 1], ranges[k], cfg, s);
    }
  }

  /** The classic loop. The original chunks stay a prefix, the ranges tile the result, every
      layer holds the summaries of the clusters of the one before, and the loop ends at a
      single chunk or where no summary succeeds; it raises exactly when a layer that it
      reaches is refused, with that layer's error. */
  method BuildClassic<E(!new)>(chunks: seq<Chunk<E>>, cfg: Clustering<E>, s: Summariser<E>)
    returns (r: Result<(seq<Chunk<E>>, seq<Range>)>)
    requires Sound(cfg) && Complete(s)
    ensures r.Ok? ==> Reached(chunks, r.value.0, r.value.1, cfg, s) && Finished(r.value.0, r.value.1, cfg, s)
    ensures forall e :: r == Raised(e) <==> Fails(chunks, cfg, s, e)
  {
    hide Sound, Complete, Clustered, ClustersOf, Refused, Tiles, Steps, LayerSummaries;
    var out := chunks;
    var start: nat, end: nat := 0, |chunks|;
    var ranges: seq<Range> := [(0, |chunks|)];
    StartReached(chunks, cfg, s);
    while end - start > 1
      invariant 0 <= start <= end == |out| && ranges != [] && Last(ranges) == (start, end)
      invariant Reached(chunks, out, ranges, cfg, s)
      decreases end - start
    {
      var clusters := ClusterLayer(LayerAt(out, (start, end)), start, cfg);
      if clusters.Raised? {
        r := Raised(clusters.error);
        FailsOnce(chunks, out, ranges, cfg, s, clusters.error);
        return;
      }
      assert out[..end] == out;
      ClusteredWithin(clusters.value, start, end);
      var more := SummariseClusters(out, clusters.value, s);
      var newest := more[end..];
      assert Splits(out, (start, end), cfg) && newest == SummariesOf(out, (start, end), cfg, s);
      if |more| == end {
        break;
      }
      ReachedMore(chunks, out, ranges, newest, cfg, s);
      assert more == out + newest;
      ranges := ranges + [(end, |more|)];
      out, start, end := more, end, |more|;
    }
    NoneFails(chunks, out, ranges, cfg, s);
    return Ok((out, ranges));
  }

  lemma TilesStart(n: nat)
    ensures Tiles([(0, n)], n, n)
  {
  }

  lemma StartReached<E(!new)>(chunks: seq<Chunk<E>>, cfg: Clustering<E>, s: Summariser<E>)
    requires Sound(cfg) && Complete(s)
    ensures Reached(chunks, chunks, [(0, |chunks|)], cfg, s)
  {
    hide Sound, Complete, Step;
    TilesStart(|chunks|);
  }

  lemma ReachedMore<E(!new)>(chunks: seq<Chunk<E>>, out: seq<Chunk<E>>, ranges: seq<Range>, added: seq<Chunk<E>>, cfg: Clustering<E>, s: Summariser<E>)
    requires Sound(cfg) && Complete(s) && Reached(chunks, out, ranges, cfg, s)
    requires Splits(out, Last(ranges), cfg) && added == SummariesOf(out, Last(ranges), cfg, s) && added != []
    ensures Reached(chunks, out + added, ranges + [(|out|, |out + added|)], cfg, s)
    ensures Size((|out|, |out + added|)) < Size(Last(ranges))
  {
    hide Sound, Complete, Step, SummariesOf, Splits;
    StepsMore(out, ranges, added, cfg, s);
    TileMore(ranges, |chunks|, |out|, |out + added|);
    var ranges' := ranges + [(|out|, |out + added|)];
    assert Step(out + added, ranges'[|ranges| - 1], ranges'[|ranges|], cfg, s);
    StepShrinks(out + added, ranges'[|ranges| - 1], ranges'[|ranges|], cfg, s);
  }

  // ------------------------------------------------- one course of the loop

  /** Two courses of the loop agree as long as both go on. */
  lemma {:induction false} SameCourse<E(!new)>(chunks: seq<Chunk<E>>, out: seq<Chunk<E>>, ranges: seq<Range>, out': seq<Chunk<E>>, ranges': seq<Range>,
                                               cfg: Clustering<E>, s: Summariser<E>, k: nat)
    requires Sound(cfg) && Complete(s)
    requires Reached(chunks, out, ranges, cfg, s) && Reached(chunks, out', ranges', cfg, s)
    requires k < |ranges| && k < |ranges'|
    ensures ranges[k] == ranges'[k] && ranges[k].1 <= |out| && ranges[k].1 <= |out'| && out[..ranges[k].1] == out'[..ranges[k].1]
    decreases k
  {
    hide Sound, Complete, SummariesOf, Splits;
    EndsBefore(ranges, |chunks|, |out|, k);
    EndsBefore(ranges', |chunks|, |out'|, k);
    if k == 0 {
      assert out[..|chunks|] == chunks && out'[..|chunks|] == chunks;
    } else {
      SameCourse(chunks, out, ranges, out', ranges', cfg, s, k - 1);
      assert Step(out, ranges[k - 1], ranges[k], cfg, s) && Step(out', ranges'[k - 1], ranges'[k], cfg, s);
      SplitsLocal(out, out', ranges[k - 1], ranges[k - 1].1, cfg, s);
      SameEnd(out, out', ranges[k], ranges'[k]);
    }
  }

  lemma SameEnd<E>(out: seq<Chunk<E>>, out': seq<Chunk<E>>, b: Range, b': Range)
    requires b.0 == b'.0 <= b.1 <= |out| && b'.0 <= b'.1 <= |out'|
    requires out[..b.0] == out'[..b.0] && LayerAt(out, b) == LayerAt(out', b')
    ensures b == b' && out[..b.1] == out'[..b.1]
  {
    assert |LayerAt(out, b)| == b.1 - b.0 && |LayerAt(out', b')| == b'.1 - b'.0;
    assert out[..b.1] == out[..b.0] + LayerAt(out, b);
    assert out'[..b.1] == out'[..b.0] + LayerAt(out', b');
  }

  /** A layer that the loop reaches last is either left behind, or is where the loop ends. */
  lemma NotBoth<E(!new)>(chunks: seq<Chunk<E>>, out: seq<Chunk<E>>, ranges: seq<Range>, out': seq<Chunk<E>>, ranges': seq<Range>,
                         cfg: Clustering<E>, s: Summariser<E>, e: Failure)
    requires Sound(cfg) && Complete(s) && Reached(chunks, out', ranges', cfg, s) && |ranges| <= |ranges'|
    requires FailsAt(chunks, out, ranges, cfg, s, e)
    ensures |ranges| == |ranges'| && Refused(LayerAt(out', Last(ranges')), cfg, e)
    ensures !Finished(out', ranges', cfg, s)
  {
    hide Sound, Complete, ClustersOf, SummariesOf, Refused;
    var k := |ranges| - 1;
    SameCourse(chunks, out, ranges, out', ranges', cfg, s, k);
    assert k + 1 < |ranges'| ==> Step(out', ranges'[k], ranges'[k + 1], cfg, s);
    var a := ranges[k];
    var layer := LayerAt(out, a);
    RefusedLarge(layer, cfg, e);
    assert out[..a.1][a.0..a.1] == out[a.0..a.1] && out'[..a.1][a.0..a.1] == out'[a.0..a.1];
    assert LayerAt(out', a) == layer;
    ClustersRaise(layer, a.0, cfg, e);
  }

  lemma RefusedLarge<E>(layer: seq<Chunk<E>>, cfg: Clustering<E>, e: Failure)
    requires Refused(layer, cfg, e)
    ensures |layer| > 2
  {
  }

  /** A course that ends does not go on. */
  lemma EndsFirst<E(!new)>(chunks: seq<Chunk<E>>, out: seq<Chunk<E>>, ranges: seq<Range>, out': seq<Chunk<E>>, ranges': seq<Range>,
                           cfg: Clustering<E>, s: Summariser<E>)
    requires Sound(cfg) && Complete(s) && Reached(chunks, out, ranges, cfg, s) && Finished(out, ranges, cfg, s)
    requires Reached(chunks, out', ranges', cfg, s)
    ensures |ranges'| <= |ranges|
  {
    hide Sound, Complete, ClustersOf, LayerSummaries;
    if |ranges| < |ranges'| {
      var k := |ranges| - 1;
      SameCourse(chunks, out, ranges, out', ranges', cfg, s, k);
      assert Step(out', ranges'[k], ranges'[k + 1], cfg, s);
      SplitsLocal(out', out, ranges[k], ranges[k].1, cfg, s);
      assert false;
    }
  }

  /** A loop that ends has reached no refused layer. */
  lemma NoneFails<E(!new)>(chunks: seq<Chunk<E>>, out: seq<Chunk<E>>, ranges: seq<Range>, cfg: Clustering<E>, s: Summariser<E>)
    requires Sound(cfg) && Complete(s) && Reached(chunks, out, ranges, cfg, s) && Finished(out, ranges, cfg, s)
    ensures forall e :: !Fails(chunks, cfg, s, e)
  {
    hide Sound, Complete, Reached, Finished, FailsAt;
    forall e ensures !Fails(chunks, cfg, s, e) {
      if Fails(chunks, cfg, s, e) {
        var out', ranges' :| FailsAt(chunks, out', ranges', cfg, s, e);
        NotHere(chunks, out, ranges, out', ranges', cfg, s, e);
      }
    }
  }

  lemma NotHere<E(!new)>(chunks: seq<Chunk<E>>, out: seq<Chunk<E>>, ranges: seq<Range>, out': seq<Chunk<E>>, ranges': seq<Range>,
                         cfg: Clustering<E>, s: Summariser<E>, e: Failure)
    requires Sound(cfg) && Complete(s) && Reached(chunks, out, ranges, cfg, s) && Finished(out, ranges, cfg, s)
    ensures !FailsAt(chunks, out', ranges', cfg, s, e)
  {
    hide Sound, Complete, Finished, Tiles, Steps;
    if FailsAt(chunks, out', ranges', cfg, s, e) {
      EndsFirst(chunks, out, ranges, out', ranges', cfg, s);
      NotBoth(chunks, out', ranges', out, ranges, cfg, s, e);
    }
  }

  /** Only one error is raised. */
  lemma FailsOnce<E(!new)>(chunks: seq<Chunk<E>>, out: seq<Chunk<E>>, ranges: seq<Range>, cfg: Clustering<E>, s: Summariser<E>, e: Failure)
    requires Sound(cfg) && Complete(s) && FailsAt(chunks, out, ranges, cfg, s, e)
    ensures forall f :: Fails(chunks, cfg, s, f) <==> f == e
  {
    hide Sound, Complete, FailsAt;
    forall f ensures Fails(chunks, cfg, s, f) <==> f == e {
      if Fails(chunks, cfg, s, f) {
        var out', ranges' :| FailsAt(chunks, out', ranges', cfg, s, f);
        SameFailure(chunks, out, ranges, out', ranges', cfg, s, e, f);
      }
    }
  }

  lemma SameFailure<E(!new)>(chunks: seq<Chunk<E>>, out: seq<Chunk<E>>, ranges: seq<Range>, out': seq<Chunk<E>>, ranges': seq<Range>,
                             cfg: Clustering<E>, s: Summariser<E>, e: Failure, f: Failure)
    requires Sound(cfg) && Complete(s) && FailsAt(chunks, out, ranges, cfg, s, e) && FailsAt(chunks, out', ranges', cfg, s, f)
    ensures e == f
  {
    hide Sound, Complete, Refused, Finished, Steps;
    if |ranges| <= |ranges'| {
      NotBoth(chunks, out, ranges, out', ranges', cfg, s, e);
      OneRefusal(LayerAt(out', Last(ranges')), cfg, e, f);
    } else {
      NotBoth(chunks, out', ranges', out, ranges, cfg, s, f);
    }
  }

  /** Agglomerative clustering never raises. */
  lemma AhcNeverFails<E(!new)>(chunks: seq<Chunk<E>>, cfg: Clustering<E>, s: Summariser<E>, e: Failure)
    requires Sound(cfg) && Complete(s) && cfg.ahc
    ensures !Fails(chunks, cfg, s, e)
  {
    hide Sound, Complete, Reached;
  }

  // ------------------------------------------------- success

  ghost predicate AlwaysSome<E(!new)>(s: Summariser<E>) {
    forall ps, texts :: s.answer(ps, texts).Some?
  }

  lemma SomeSummary<E(!new)>(chunks: seq<Chunk<E>>, clusters: seq<seq<nat>>, a: nat, b: nat, s: Summariser<E>)
    requires AlwaysSome(s) && Complete(s) && Clustered(clusters, a, b) && a < b <= |chunks| && Within(clusters, 0, |chunks|)
    ensures LayerSummaries(chunks, clusters, s) != []
  {
    hide Complete, Summaries, Rising;
    assert Covered(clusters, a);
    var order := s.finished(clusters);
    assert multiset(order) == multiset(clusters) by { Finishes(s, clusters); }
    SameWithin(chunks, clusters, order, |chunks|);
    NoSummaries(chunks, order, s);
    assert clusters[0] in order && Succeeds(chunks, clusters[0], s);
  }

  lemma Finishes<E(!new)>(s: Summariser<E>, clusters: seq<seq<nat>>)
    requires Complete(s)
    ensures multiset(s.finished(clusters)) == multiset(clusters)
  {
  }

  /** When every summary succeeds, the loop ends at a single chunk. */
  lemma EndsAtOneChunk<E(!new)>(out: seq<Chunk<E>>, ranges: seq<Range>, cfg: Clustering<E>, s: Summariser<E>)
    requires Sound(cfg) && Complete(s) && AlwaysSome(s) && ranges != [] && Finished(out, ranges, cfg, s)
    ensures Size(Last(ranges)) <= 1
  {
    hide Sound, Complete, AlwaysSome, ClustersOf, Clustered, LayerSummaries;
    var a := Last(ranges);
    if Stuck(out, a, cfg, s) {
      ClustersFit(LayerAt(out, a), a.0, cfg);
      var clusters := ClustersOf(LayerAt(out, a), a.0, cfg).value;
      ClusteredWithin(clusters, a.0, a.1);
      SomeSummary(out[..a.1], clusters, a.0, a.1, s);
    }
  }

  // ------------------------------------------------- refused layers at an input

  function PrefersTwo(layer: seq<Chunk<int>>, n: nat): real { if n == 2 then 0.0 else 1.0 }

  function EvenRows(layer: seq<Chunk<int>>, n: nat): seq<seq<real>> {
    seq(|layer|, _ => seq(n, _ => 0.5))
  }

  function SomeDistances(layer: seq<Chunk<int>>): seq<real> {
    if layer == [] then [] else seq(|layer| - 1, _ => 1.0)
  }

  function OneLabel(layer: seq<Chunk<int>>, n: nat): seq<nat> { Zeros(|layer|) }

  function SomeCentroids(layer: seq<Chunk<int>>, labels: seq<nat>): seq<seq<real>> {
    seq(|layer|, _ => seq(|Unique(labels)|, _ => 1.0))
  }

  /** A mixture that prefers two components and finds every item equally near to both. */
  function EvenMixture(threshold: real): Clustering<int> {
    Clustering(false, 3, threshold, PrefersTwo, EvenRows, SomeDistances, OneLabel, SomeCentroids)
  }

  function ThreeChunks(): seq<Chunk<int>> {
    [Chunk("a", 1), Chunk("b", 2), Chunk("c", 3)]
  }

  lemma EvenMixtureSound(threshold: real)
    ensures Sound(EvenMixture(threshold)) && Best(ThreeChunks(), EvenMixture(threshold), 2)
  {
    var cfg := EvenMixture(threshold);
    assert cfg.bic(ThreeChunks(), 1) == 1.0 && cfg.bic(ThreeChunks(), 2) == 0.0;
  }

  /** With the threshold at one half no item has a component above it. */
  lemma NoLabelRaised(s: Summariser<int>)
    requires Complete(s)
    ensures Sound(EvenMixture(0.5)) && Fails(ThreeChunks(), EvenMixture(0.5), s, NoLabel)
  {
    hide Complete, Step, Sound;
    var cfg, chunks := EvenMixture(0.5), ThreeChunks();
    EvenMixtureSound(0.5);
    var rows := cfg.probs(chunks, 2);
    assert |rows| == 3 && !Exceeds(rows[0], 0.5);
    StartReached(chunks, cfg, s);
    assert LayerAt(chunks, (0, 3)) == chunks;
    assert Refused(chunks, cfg, NoLabel) by {
      assert !AllExceed(rows, 0.5);
    }
    assert FailsAt(chunks, chunks, [(0, 3)], cfg, s, NoLabel);
  }

  /** With a threshold of one tenth every item goes to the first component, so the second
      cluster is empty. */
  lemma EmptyClusterRaised(s: Summariser<int>)
    requires Complete(s)
    ensures Sound(EvenMixture(0.1)) && Fails(ThreeChunks(), EvenMixture(0.1), s, EmptyCluster)
  {
    hide Complete, Step, Sound;
    var cfg, chunks := EvenMixture(0.1), ThreeChunks();
    EvenMixtureSound(0.1);
    var rows := cfg.probs(chunks, 2);
    forall i | 0 <= i < |rows| ensures Exceeds(rows[i], 0.1) && !First(rows[i], 0.1, 1) {
      assert rows[i][0] > 0.1;
    }
    StartReached(chunks, cfg, s);
    assert LayerAt(chunks, (0, 3)) == chunks;
    assert Refused(chunks, cfg, EmptyCluster) by {
      assert AllExceed(rows, 0.1) && !Used(rows, 0.1, 1);
    }
    assert FailsAt(chunks, chunks, [(0, 3)], cfg, s, EmptyCluster);
  }
}
