/** How one layer is labelled: by agglomerative clusters or by a mixture. */
module RaptorLabels {
  import opened RaptorChunks

  // ------------------------------------------------- distinct labels

  predicate Rising(u: seq<nat>) {
    forall i, j :: 0 <= i < j < |u| ==> u[i] < u[j]
  }

  function Insert(u: seq<nat>, x: nat): (v: seq<nat>)
    requires Rising(u)
    ensures Rising(v) && forall y :: y in v <==> y in u || y == x
  {
    if u == [] then [x]
    else if x < u[0] then [x] + u
    else if x == u[0] then u
    else
      var rest := Insert(u[1..], x);
      assert forall i :: 0 <= i < |rest| ==> rest[i] in rest;
      [u[0]] + rest
  }

  /** `np.unique`: the distinct labels in increasing order. */
  function Unique(labels: seq<nat>): (u: seq<nat>)
    ensures Rising(u) && forall y :: y in u <==> y in labels
  {
    if labels == [] then [] else
    assert labels == [labels[0]] + labels[1..];
    Insert(Unique(labels[1..]), labels[0])
  }

  /** Increasing labels below n are at most n. */
  lemma {:induction false} RisingBounded(u: seq<nat>, n: nat)
    requires Rising(u) && forall y :: y in u ==> y < n
    ensures |u| <= n
    decreases |u|
  {
    if u != [] {
      var last := u[|u| - 1];
      assert last in u;
      RisingBounded(u[..|u| - 1], last);
    }
  }

  /** Increasing labels drawn from an increasing list are no more than it. */
  lemma {:induction false} RisingWithin(u: seq<nat>, v: seq<nat>)
    requires Rising(u) && Rising(v) && forall y :: y in u ==> y in v
    ensures |u| <= |v|
    decreases |v|
  {
    if u != [] {
      assert u[0] in v;
      var last := v[|v| - 1];
      var front := v[..|v| - 1];
      var short := if u[|u| - 1] == last then u[..|u| - 1] else u;
      assert u[|u| - 1] in v;
      forall i | 0 <= i < |short| ensures short[i] in front {
        assert short[i] == u[i] && u[i] in v;
        var k :| 0 <= k < |v| && v[k] == u[i];
        assert k < |v| - 1;
        assert front[k] == u[i];
      }
      RisingWithin(short, front);
    }
  }

  lemma {:induction false} UniqueNoMore(labels: seq<nat>)
    ensures |Unique(labels)| <= |labels|
    decreases |labels|
  {
    if labels != [] {
      UniqueNoMore(labels[1..]);
      InsertNoMore(Unique(labels[1..]), labels[0]);
    }
  }

  lemma {:induction false} InsertNoMore(u: seq<nat>, x: nat)
    requires Rising(u)
    ensures |Insert(u, x)| <= |u| + 1
    decreases |u|
  {
    if u != [] && x > u[0] {
      InsertNoMore(u[1..], x);
    }
  }

  /** Position of a label in the list of distinct labels: `label_map`, `remap`. */
  function Position(u: seq<nat>, x: nat): (p: nat)
    requires x in u
    ensures p < |u| && u[p] == x
  {
    if u[0] == x then 0 else 1 + Position(u[1..], x)
  }

  /** `[label_map[label] for label in labels]`. */
  function Compact(labels: seq<nat>): (r: seq<nat>)
    ensures |r| == |labels|
  {
    var u := Unique(labels);
    seq(|labels|, i requires 0 <= i < |labels| => Position(u, labels[i]))
  }

  /** Compact labels are 0 to k - 1, each in use, and equal exactly where the labels were. */
  lemma CompactLabels(labels: seq<nat>)
    ensures forall i :: 0 <= i < |labels| ==> Compact(labels)[i] < |Unique(labels)|
    ensures forall c: nat :: c < |Unique(labels)| ==> c in Compact(labels)
    ensures forall i, j :: 0 <= i < |labels| && 0 <= j < |labels| ==>
      (Compact(labels)[i] == Compact(labels)[j] <==> labels[i] == labels[j])
      && (Compact(labels)[i] < Compact(labels)[j] <==> labels[i] < labels[j])
  {
    var u, r := Unique(labels), Compact(labels);
    forall i | 0 <= i < |labels| ensures u[r[i]] == labels[i] { }
    forall i, j | 0 <= i < |labels| && 0 <= j < |labels| ensures r[i] < r[j] <==> labels[i] < labels[j] {
      assert u[r[i]] == labels[i] && u[r[j]] == labels[j];
    }
    forall c: nat | c < |u| ensures c in r {
      assert u[c] in labels;
      var i :| 0 <= i < |labels| && labels[i] == u[c];
      assert r[i] == c;
    }
  }

  // ------------------------------------------------- what the numeric libraries answer

  /** Answers of the numeric parts, as functions of the layer: arbitrary numbers of the right
      shape. `bic` for a component count; `probs` of the mixture; `distances` of the full
      dendrogram; `agglomerate` labels for a cluster count; squared distances of every item
      to the centroid of every distinct label. */
  datatype Clustering<!E> = Clustering(
    ahc: bool, maxCluster: int, threshold: real,
    bic: (seq<Chunk<E>>, nat) -> real,
    probs: (seq<Chunk<E>>, nat) -> seq<seq<real>>,
    distances: seq<Chunk<E>> -> seq<real>,
    agglomerate: (seq<Chunk<E>>, nat) -> seq<nat>,
    centroids: (seq<Chunk<E>>, seq<nat>) -> seq<seq<real>>)

  ghost predicate Rows(m: seq<seq<real>>, rows: nat, columns: nat) {
    |m| == rows && forall i :: 0 <= i < rows ==> |m[i]| == columns
  }

  ghost predicate Below(labels: seq<nat>, rows: nat, n: nat) {
    |labels| == rows && forall i :: 0 <= i < rows ==> labels[i] < n
  }

  /** Shapes only: rows for items, columns for components or labels, labels within the count. */
  ghost predicate Sound<E(!new)>(cfg: Clustering<E>) {
    && (forall layer, n :: Rows(cfg.probs(layer, n), |layer|, n))
    && (forall layer :: |layer| > 0 ==> |cfg.distances(layer)| == |layer| - 1)
    && (forall layer, n :: n > 0 ==> Below(cfg.agglomerate(layer, n), |layer|, n))
    && (forall layer, labels :: Rows(cfg.centroids(layer, labels), |layer|, |Unique(labels)|))
  }

  // ------------------------------------------------- first least values

  ghost predicate FirstLeast(xs: seq<real>, at: nat) {
    at < |xs| && (forall i :: 0 <= i < |xs| ==> xs[at] <= xs[i]) && forall i :: 0 <= i < at ==> xs[at] < xs[i]
  }

  /** The first position of the smallest value. */
  ghost function ArgLeast(xs: seq<real>): (at: nat)
    requires xs != []
    ensures FirstLeast(xs, at)
  {
    if |xs| == 1 then 0 else
    var front := xs[..|xs| - 1];
    var at := ArgLeast(front);
    assert forall i :: 0 <= i < |front| ==> front[i] == xs[i];
    if xs[|xs| - 1] < xs[at] then |xs| - 1 else at
  }

  /** `np.argmin`. */
  method ArgMin(xs: seq<real>) returns (at: nat)
    requires xs != []
    ensures at == ArgLeast(xs)
  {
    at := 0;
    for i := 1 to |xs|
      invariant at < i && (forall j :: 0 <= j < i ==> xs[at] <= xs[j]) && forall j :: 0 <= j < at ==> xs[at] < xs[j]
    {
      if xs[i] < xs[at] {
        at := i;
      }
    }
    assert FirstLeast(xs, at);
  }

  /** From each value to the next, how far the list falls. */
  ghost function Falls(ds: seq<real>): seq<real> {
    if |ds| < 2 then [] else seq(|ds| - 1, i requires 0 <= i < |ds| - 1 => ds[i] - ds[i + 1])
  }

  function Gap(ds: seq<real>, i: nat): real
    requires i + 1 < |ds|
  {
    ds[i + 1] - ds[i]
  }

  /** After position `at` comes the first of the largest gaps. */
  ghost predicate FirstWidest(ds: seq<real>, at: nat) {
    && at + 1 < |ds|
    && (forall i :: 0 <= i < |ds| - 1 ==> ds[i + 1] - ds[i] <= ds[at + 1] - ds[at])
    && (forall i :: 0 <= i < at ==> ds[i + 1] - ds[i] < ds[at + 1] - ds[at])
  }

  lemma WidestIsLeastFall(ds: seq<real>, at: nat)
    requires |ds| > 1
    ensures FirstWidest(ds, at) <==> at == ArgLeast(Falls(ds))
  {
    var least := ArgLeast(Falls(ds));
    assert forall i {:trigger Falls(ds)[i]} :: 0 <= i < |ds| - 1 ==> Falls(ds)[i] == ds[i] - ds[i + 1];
    forall i | 0 <= i < |ds| - 1
      ensures ds[i + 1] - ds[i] <= ds[least + 1] - ds[least] && (i < least ==> ds[i + 1] - ds[i] < ds[least + 1] - ds[least])
    {
      assert Falls(ds)[i] == ds[i] - ds[i + 1] && Falls(ds)[least] == ds[least] - ds[least + 1];
    }
  }

  /** `np.argmax(np.diff(distances))`: the position after which the first largest gap follows. */
  method WidestGap(ds: seq<real>) returns (at: nat)
    requires |ds| > 1
    ensures at < |ds| - 1 && at == ArgLeast(Falls(ds))
    ensures forall i :: 0 <= i < |ds| - 1 ==> Gap(ds, i) <= Gap(ds, at)
    ensures forall i :: 0 <= i < at ==> Gap(ds, i) < Gap(ds, at)
  {
    hide Gap;
    at := 0;
    for i := 1 to |ds| - 1
      invariant at < i <= |ds| - 1
      invariant forall j :: 0 <= j < i ==> Gap(ds, j) <= Gap(ds, at)
      invariant forall j :: 0 <= j < at ==> Gap(ds, j) < Gap(ds, at)
    {
      if Gap(ds, i) > Gap(ds, at) {
        at := i;
      }
    }
    LeastFall(ds, at);
  }

  lemma LeastFall(ds: seq<real>, at: nat)
    requires at < |ds| - 1
    requires forall i :: 0 <= i < |ds| - 1 ==> Gap(ds, i) <= Gap(ds, at)
    requires forall i :: 0 <= i < at ==> Gap(ds, i) < Gap(ds, at)
    ensures at == ArgLeast(Falls(ds))
  {
    var falls := Falls(ds);
    forall i | 0 <= i < |falls| ensures falls[at] <= falls[i] && (i < at ==> falls[at] < falls[i]) {
      assert falls[i] == -Gap(ds, i) && falls[at] == -Gap(ds, at);
    }
    var other := ArgLeast(falls);
    assert FirstLeast(falls, other);
  }

  function Min(a: int, b: int): int { if b < a then b else a }

  function Max(a: int, b: int): int { if b > a then b else a }

  // ------------------------------------------------- cluster counts

  datatype Failure = NoClusterCount | NoLabel | EmptyCluster

  datatype Result<+T> = Ok(value: T) | Raised(error: Failure)

  /** n has the lowest score among the counts in [1, min(max_cluster, items) - 1] and is the
      smallest such count. */
  ghost predicate Best<E>(layer: seq<Chunk<E>>, cfg: Clustering<E>, n: nat) {
    && 1 <= n < Min(cfg.maxCluster, |layer|)
    && (forall m: nat :: 1 <= m < Min(cfg.maxCluster, |layer|) ==> cfg.bic(layer, n) <= cfg.bic(layer, m))
    && (forall m: nat :: 1 <= m < n ==> cfg.bic(layer, n) < cfg.bic(layer, m))
  }

  ghost function Scores<E>(layer: seq<Chunk<E>>, cfg: Clustering<E>): seq<real> {
    seq(Max(0, Min(cfg.maxCluster, |layer|) - 1), i requires 0 <= i => cfg.bic(layer, i + 1))
  }

  /** The best count; with no count to choose from the minimum of an empty array raises. */
  ghost function OptimalCount<E>(layer: seq<Chunk<E>>, cfg: Clustering<E>): (r: Result<nat>)
    ensures r.Ok? <==> Min(cfg.maxCluster, |layer|) >= 2
    ensures r.Ok? ==> Best(layer, cfg, r.value)
    ensures r.Raised? ==> r.error == NoClusterCount
  {
    var scores := Scores(layer, cfg);
    if scores == [] then Raised(NoClusterCount) else
    assert forall m: nat :: 1 <= m <= |scores| ==> scores[m - 1] == cfg.bic(layer, m);
    Ok(ArgLeast(scores) + 1)
  }

  lemma BestIsOptimal<E>(layer: seq<Chunk<E>>, cfg: Clustering<E>, n: nat)
    requires Best(layer, cfg, n)
    ensures OptimalCount(layer, cfg) == Ok(n)
  {
    var m := OptimalCount(layer, cfg).value;
    assert Best(layer, cfg, m);
  }

  /** `_get_optimal_clusters`. */
  method GetOptimalClusters<E>(layer: seq<Chunk<E>>, cfg: Clustering<E>) returns (r: Result<nat>)
    ensures r == OptimalCount(layer, cfg)
  {
    var maxClusters := Min(cfg.maxCluster, |layer|);
    var bics: seq<real> := [];
    var n: nat := 1;
    while n < maxClusters
      invariant 1 <= n <= Max(1, maxClusters) && |bics| == n - 1
      invariant forall i :: 0 <= i < |bics| ==> bics[i] == cfg.bic(layer, i + 1)
    {
      bics := bics + [cfg.bic(layer, n)];
      n := n + 1;
    }
    assert bics == Scores(layer, cfg);
    if bics == [] {
      return Raised(NoClusterCount);
    }
    var at := ArgMin(bics);
    return Ok(at + 1);
  }

  // ------------------------------------------------- agglomerative labels

  function Zeros(n: nat): (labels: seq<nat>)
    ensures |labels| == n && forall i :: 0 <= i < n ==> labels[i] == 0
  {
    seq(n, _ => 0)
  }

  /** The cluster count that the largest gap of the dendrogram suggests. */
  ghost function GapCount<E(!new)>(layer: seq<Chunk<E>>, cfg: Clustering<E>): (n: nat)
    requires Sound(cfg) && |layer| >= 3
    ensures 1 <= n <= Max(1, Min(|layer| - 1, cfg.maxCluster))
  {
    Max(1, Min(|layer| - ArgLeast(Falls(cfg.distances(layer))) - 1, cfg.maxCluster))
  }

  /** Cutting the dendrogram in the first of its largest gaps leaves as many clusters as there are
      merges above it and one more; the count is that, but at most `max_cluster` and at least 1. */
  lemma GapCountIs<E(!new)>(layer: seq<Chunk<E>>, cfg: Clustering<E>) returns (at: nat)
    requires Sound(cfg) && |layer| >= 3
    ensures FirstWidest(cfg.distances(layer), at) && at < |layer| - 2
    ensures var clusters := |layer| - (at + 1);
      && (clusters <= cfg.maxCluster ==> GapCount(layer, cfg) == clusters)
      && (1 <= cfg.maxCluster < clusters ==> GapCount(layer, cfg) == cfg.maxCluster)
      && (cfg.maxCluster < 1 ==> GapCount(layer, cfg) == 1)
  {
    assert |cfg.distances(layer)| == |layer| - 1;
    at := ArgLeast(Falls(cfg.distances(layer)));
    WidestIsLeastFall(cfg.distances(layer), at);
  }

  lemma OneWidest(ds: seq<real>, at: nat, other: nat)
    requires FirstWidest(ds, at) && FirstWidest(ds, other)
    ensures at == other
  {
    WidestIsLeastFall(ds, at);
    WidestIsLeastFall(ds, other);
  }

  ghost function AhcLabels<E(!new)>(layer: seq<Chunk<E>>, cfg: Clustering<E>): (labels: seq<nat>)
    requires Sound(cfg)
    ensures |labels| == |layer|
  {
    if |layer| <= 1 then Zeros(|layer|)
    else if |layer| == 2 then [0, 1]
    else if GapCount(layer, cfg) <= 1 then Zeros(|layer|)
    else
      assert Below(cfg.agglomerate(layer, GapCount(layer, cfg)), |layer|, GapCount(layer, cfg));
      cfg.agglomerate(layer, GapCount(layer, cfg))
  }

  /** No more distinct labels than the gap suggests. */
  lemma AhcFew<E(!new)>(layer: seq<Chunk<E>>, cfg: Clustering<E>)
    requires Sound(cfg) && |layer| >= 3
    ensures |Unique(AhcLabels(layer, cfg))| <= GapCount(layer, cfg) <= Max(1, Min(|layer| - 1, cfg.maxCluster))
  {
    var n := GapCount(layer, cfg);
    if n > 1 { assert Below(cfg.agglomerate(layer, n), |layer|, n); }
    RisingBounded(Unique(AhcLabels(layer, cfg)), n);
  }

  /** `_get_clusters_ahc`: one label per item, below the count the largest gap suggests. */
  method GetClustersAhc<E(!new)>(layer: seq<Chunk<E>>, cfg: Clustering<E>) returns (labels: seq<nat>)
    requires Sound(cfg)
    ensures labels == AhcLabels(layer, cfg) && |labels| == |layer|
    ensures |layer| == 2 ==> labels == [0, 1]
    ensures |layer| >= 3 && GapCount(layer, cfg) >= 2 ==> labels == cfg.agglomerate(layer, GapCount(layer, cfg))
    ensures |layer| <= 1 || (|layer| >= 3 && GapCount(layer, cfg) == 1) ==> forall i :: 0 <= i < |labels| ==> labels[i] == 0
    ensures |layer| >= 3 ==> |Unique(labels)| <= Max(1, Min(|layer| - 1, cfg.maxCluster))
  {
    var n := |layer|;
    if n <= 1 {
      return Zeros(n);
    }
    if n == 2 {
      return [0, 1];
    }
    AhcFew(layer, cfg);
    var distances := cfg.distances(layer);
    var count;
    if |distances| > 1 {
      var gap := WidestGap(distances);
      count := Max(1, Min(n - gap - 1, cfg.maxCluster));
    } else {
      count := Max(1, Min(n, cfg.maxCluster));
    }
    if count <= 1 {
      labels := Zeros(n);
    } else {
      labels := cfg.agglomerate(layer, count);
    }
  }

  /** The label of the first nearest centroid. */
  ghost predicate NearestTo(row: seq<real>, unique: seq<nat>, found: nat) {
    exists at: nat :: FirstLeast(row, at) && at < |unique| && found == unique[at]
  }

  ghost function NearestLabel(unique: seq<nat>, row: seq<real>): (found: nat)
    requires unique != [] && |row| == |unique|
    ensures NearestTo(row, unique, found)
  {
    unique[ArgLeast(row)]
  }

  /** Every item gets the label of its nearest centroid, the first one in a tie. */
  ghost function NearestLabels(unique: seq<nat>, rows: seq<seq<real>>): (labels: seq<nat>)
    requires unique != [] && Rows(rows, |rows|, |unique|)
    ensures |labels| == |rows| && forall i :: 0 <= i < |rows| ==> NearestTo(rows[i], unique, labels[i])
  {
    seq(|rows|, i requires 0 <= i < |rows| => NearestLabel(unique, rows[i]))
  }

  method Nearest(unique: seq<nat>, rows: seq<seq<real>>) returns (labels: seq<nat>)
    requires unique != [] && Rows(rows, |rows|, |unique|)
    ensures labels == NearestLabels(unique, rows)
  {
    labels := [];
    for i := 0 to |rows|
      invariant |labels| == i && forall j :: 0 <= j < i ==> labels[j] == NearestLabels(unique, rows)[j]
    {
      var at := ArgMin(rows[i]);
      labels := labels + [unique[at]];
    }
  }

  /** Where every item already has its nearest centroid's label nothing moves; otherwise the
      items move and the labels are made compact, for so many rounds. */
  ghost function Adjusted<E(!new)>(layer: seq<Chunk<E>>, labels: seq<nat>, rounds: nat, cfg: Clustering<E>): (r: seq<nat>)
    requires Sound(cfg) && |labels| == |layer| > 0
    ensures |r| == |layer|
    decreases rounds
  {
    if rounds == 0 || |Unique(labels)| <= 1 then labels else
    assert Rows(cfg.centroids(layer, labels), |layer|, |Unique(labels)|);
    var moved := NearestLabels(Unique(labels), cfg.centroids(layer, labels));
    if moved == labels then labels else Adjusted(layer, Compact(moved), rounds - 1, cfg)
  }

  /** Every item has the label of its first nearest centroid. */
  ghost predicate Nearby(unique: seq<nat>, rows: seq<seq<real>>, moved: seq<nat>) {
    |moved| == |rows| && forall i :: 0 <= i < |rows| ==> NearestTo(rows[i], unique, moved[i])
  }

  /** One round: the labels stay when rounds are used up, a single cluster is left or every item
      is with its nearest centroid; otherwise all items move at once and the rest of the rounds
      goes on from the compact labels. */
  lemma AdjustedRound<E(!new)>(layer: seq<Chunk<E>>, labels: seq<nat>, rounds: nat, cfg: Clustering<E>, moved: seq<nat>)
    requires Sound(cfg) && |labels| == |layer| > 0 && Nearby(Unique(labels), cfg.centroids(layer, labels), moved)
    ensures rounds == 0 || |Unique(labels)| <= 1 || moved == labels ==> Adjusted(layer, labels, rounds, cfg) == labels
    ensures rounds > 0 && |Unique(labels)| > 1 && moved != labels ==>
      Adjusted(layer, labels, rounds, cfg) == Adjusted(layer, Compact(moved), rounds - 1, cfg)
  {
    hide Compact;
    if rounds > 0 && |Unique(labels)| > 1 {
      var rows, unique := cfg.centroids(layer, labels), Unique(labels);
      assert Rows(rows, |layer|, |unique|);
      forall i | 0 <= i < |rows| ensures NearestLabels(unique, rows)[i] == moved[i] {
        assert NearestTo(rows[i], unique, NearestLabels(unique, rows)[i]);
        OneNearest(rows[i], unique, moved[i], NearestLabels(unique, rows)[i]);
      }
      assert moved == NearestLabels(unique, rows);
    }
  }

  lemma OneNearest(row: seq<real>, unique: seq<nat>, a: nat, b: nat)
    requires NearestTo(row, unique, a) && NearestTo(row, unique, b)
    ensures a == b
  {
    var i: nat :| FirstLeast(row, i) && i < |unique| && a == unique[i];
    var j: nat :| FirstLeast(row, j) && j < |unique| && b == unique[j];
    assert row[i] <= row[j] && row[j] <= row[i];
  }

  /** Moving items makes no new clusters. */
  lemma {:induction false} AdjustedNoMore<E(!new)>(layer: seq<Chunk<E>>, labels: seq<nat>, rounds: nat, cfg: Clustering<E>)
    requires Sound(cfg) && |labels| == |layer| > 0
    ensures |Unique(Adjusted(layer, labels, rounds, cfg))| <= |Unique(labels)|
    decreases rounds
  {
    if rounds > 0 && |Unique(labels)| > 1 {
      var unique := Unique(labels);
      assert Rows(cfg.centroids(layer, labels), |layer|, |unique|);
      var moved := NearestLabels(unique, cfg.centroids(layer, labels));
      if moved != labels {
        RisingWithin(Unique(moved), unique);
        CompactLabels(moved);
        RisingBounded(Unique(Compact(moved)), |Unique(moved)|);
        AdjustedNoMore(layer, Compact(moved), rounds - 1, cfg);
      }
    }
  }

  /** `_adjust_tree_nodes`: reassigning items never makes more clusters. */
  method AdjustTreeNodes<E(!new)>(layer: seq<Chunk<E>>, start: seq<nat>, maxIter: nat, cfg: Clustering<E>) returns (labels: seq<nat>)
    requires Sound(cfg) && |start| == |layer| > 0
    ensures labels == Adjusted(layer, start, maxIter, cfg)
    ensures |labels| == |layer| && |Unique(labels)| <= |Unique(start)|
  {
    AdjustedNoMore(layer, start, maxIter, cfg);
    labels := start;
    for round := 0 to maxIter
      invariant |labels| == |layer|
      invariant Adjusted(layer, labels, maxIter - round, cfg) == Adjusted(layer, start, maxIter, cfg)
    {
      var unique := Unique(labels);
      if |unique| <= 1 {
        return labels;
      }
      assert Rows(cfg.centroids(layer, labels), |layer|, |unique|);
      var moved := Nearest(unique, cfg.centroids(layer, labels));
      if moved == labels {
        break;
      }
      labels := Compact(moved);
    }
  }

  // ------------------------------------------------- mixture labels

  ghost predicate Exceeds(row: seq<real>, threshold: real) {
    exists c :: 0 <= c < |row| && row[c] > threshold
  }

  ghost predicate First(row: seq<real>, threshold: real, c: nat) {
    c < |row| && row[c] > threshold && forall d :: 0 <= d < c ==> row[d] <= threshold
  }

  ghost function FirstOf(row: seq<real>, threshold: real): (c: nat)
    requires Exceeds(row, threshold)
    ensures First(row, threshold, c)
  {
    if row[0] > threshold then 0 else
    var k :| 0 <= k < |row| && row[k] > threshold;
    assert row[1..][k - 1] > threshold;
    1 + FirstOf(row[1..], threshold)
  }

  ghost predicate AllExceed(rows: seq<seq<real>>, threshold: real) {
    forall i :: 0 <= i < |rows| ==> Exceeds(rows[i], threshold)
  }

  ghost function FirstLabels(rows: seq<seq<real>>, threshold: real): (r: Result<seq<nat>>)
    ensures r.Ok? <==> AllExceed(rows, threshold)
    ensures r.Ok? ==> |r.value| == |rows| && forall i :: 0 <= i < |rows| ==> First(rows[i], threshold, r.value[i])
    ensures r.Raised? ==> r.error == NoLabel
  {
    if !AllExceed(rows, threshold) then Raised(NoLabel) else
    Ok(seq(|rows|, i requires 0 <= i < |rows| => FirstOf(rows[i], threshold)))
  }

  /** The first component above the threshold for every item; an item with none raises. */
  method FirstAbove(rows: seq<seq<real>>, threshold: real, n: nat) returns (r: Result<seq<nat>>)
    requires Rows(rows, |rows|, n)
    ensures r == FirstLabels(rows, threshold)
    ensures r.Ok? ==> Below(r.value, |rows|, n)
  {
    var labels: seq<nat> := [];
    for i := 0 to |rows|
      invariant |labels| == i && forall j :: 0 <= j < i ==> First(rows[j], threshold, labels[j])
    {
      var c := 0;
      while c < n && rows[i][c] <= threshold
        invariant 0 <= c <= n && forall d :: 0 <= d < c ==> rows[i][d] <= threshold
      {
        c := c + 1;
      }
      if c == n {
        assert !Exceeds(rows[i], threshold);
        return Raised(NoLabel);
      }
      assert First(rows[i], threshold, c);
      labels := labels + [c];
    }
    forall j | 0 <= j < |rows| ensures Exceeds(rows[j], threshold) {
      assert rows[j][labels[j]] > threshold;
    }
    assert labels == FirstLabels(rows, threshold).value;
    return Ok(labels);
  }

  // ------------------------------------------------- labels of a layer

  /** Every cluster number below n labels some item. */
  ghost predicate Onto(labels: seq<nat>, n: nat) {
    forall c: nat :: c < n ==> c in labels
  }

  /** The agglomerative labels, adjusted when there are several. */
  ghost function AhcAdjusted<E(!new)>(layer: seq<Chunk<E>>, cfg: Clustering<E>): (labels: seq<nat>)
    requires Sound(cfg) && |layer| >= 3
    ensures |labels| == |layer|
  {
    var raw := AhcLabels(layer, cfg);
    if |Unique(raw)| > 1 then Adjusted(layer, raw, 5, cfg) else raw
  }

  ghost function Labelled(labels: seq<nat>, n: nat): (seq<nat>, nat) {
    (if n == 1 then Zeros(|labels|) else labels, n)
  }

  /** Labels and cluster count of a layer of at least three items, by either method. */
  ghost function LabelsOf<E(!new)>(layer: seq<Chunk<E>>, cfg: Clustering<E>): Result<(seq<nat>, nat)>
    requires Sound(cfg) && |layer| >= 3
  {
    if cfg.ahc then
      var labels := AhcAdjusted(layer, cfg);
      Ok(Labelled(Compact(labels), |Unique(labels)|))
    else
      var count := OptimalCount(layer, cfg);
      if count.Raised? then Raised(count.error)
      else if count.value == 1 then Ok((Zeros(|layer|), 1))
      else
        var first := FirstLabels(cfg.probs(layer, count.value), cfg.threshold);
        if first.Raised? then Raised(first.error) else Ok((first.value, count.value))
  }

  /** The agglomerative labels, given at most five rounds of adjustment when there are several,
      numbered from 0 and counted. */
  lemma LabelsByAhc<E(!new)>(layer: seq<Chunk<E>>, cfg: Clustering<E>) returns (labels: seq<nat>)
    requires Sound(cfg) && |layer| >= 3 && cfg.ahc
    ensures labels == if |Unique(AhcLabels(layer, cfg))| > 1 then Adjusted(layer, AhcLabels(layer, cfg), 5, cfg) else AhcLabels(layer, cfg)
    ensures LabelsOf(layer, cfg).Ok? && LabelsOf(layer, cfg).value.1 == |Unique(labels)|
    ensures |LabelsOf(layer, cfg).value.0| == |labels| == |layer|
    ensures forall i, j :: 0 <= i < |layer| && 0 <= j < |layer| ==>
      (LabelsOf(layer, cfg).value.0[i] == LabelsOf(layer, cfg).value.0[j] <==> labels[i] == labels[j])
  {
    labels := AhcAdjusted(layer, cfg);
    CompactLabels(labels);
    hide AhcAdjusted, Sound;
    if |Unique(labels)| == 1 {
      OneLabelOnly(labels);
    }
  }

  lemma OneLabelOnly(labels: seq<nat>)
    requires |Unique(labels)| == 1
    ensures forall i, j :: 0 <= i < |labels| && 0 <= j < |labels| ==> labels[i] == labels[j]
  {
    forall i | 0 <= i < |labels| ensures labels[i] == Unique(labels)[0] { assert labels[i] in Unique(labels); }
  }

  /** The labels of the mixture with the best count: each item's first component above the
      threshold, or one cluster for all when the best count is 1. */
  lemma LabelsByMixture<E(!new)>(layer: seq<Chunk<E>>, cfg: Clustering<E>, n: nat)
    requires Sound(cfg) && |layer| >= 3 && !cfg.ahc && Best(layer, cfg, n) && LabelsOf(layer, cfg).Ok?
    ensures LabelsOf(layer, cfg).value.1 == n && |LabelsOf(layer, cfg).value.0| == |layer|
    ensures n == 1 ==> forall i :: 0 <= i < |layer| ==> LabelsOf(layer, cfg).value.0[i] == 0
    ensures |cfg.probs(layer, n)| == |layer|
    ensures n > 1 ==> forall i :: 0 <= i < |layer| ==> First(cfg.probs(layer, n)[i], cfg.threshold, LabelsOf(layer, cfg).value.0[i])
  {
    BestIsOptimal(layer, cfg, n);
    assert Rows(cfg.probs(layer, n), |layer|, n);
  }

  lemma AhcFewer<E(!new)>(layer: seq<Chunk<E>>, cfg: Clustering<E>)
    requires Sound(cfg) && |layer| >= 3
    ensures 1 <= |Unique(AhcAdjusted(layer, cfg))| < |layer|
  {
    hide Adjusted, AhcLabels, Compact, Sound, GapCount;
    var raw := AhcLabels(layer, cfg);
    AhcFew(layer, cfg);
    if |Unique(raw)| > 1 {
      AdjustedNoMore(layer, raw, 5, cfg);
    }
    var labels := AhcAdjusted(layer, cfg);
    assert labels[0] in Unique(labels);
  }

  lemma AhcOnto<E(!new)>(layer: seq<Chunk<E>>, cfg: Clustering<E>)
    requires Sound(cfg) && |layer| >= 3 && cfg.ahc
    ensures var (labels, n) := LabelsOf(layer, cfg).value;
      Below(labels, |layer|, n) && 1 <= n < |layer| && Onto(labels, n)
  {
    hide AhcAdjusted, Compact, Sound, Unique;
    AhcFewer(layer, cfg);
    CompactLabels(AhcAdjusted(layer, cfg));
    var zeros := Zeros(|layer|);
    assert zeros[0] == 0;
  }

  /** A layer that is labelled has fewer clusters than items and labels within the count; the
      agglomerative method always labels and uses every number. */
  lemma LabelsFit<E(!new)>(layer: seq<Chunk<E>>, cfg: Clustering<E>)
    requires Sound(cfg) && |layer| >= 3
    ensures var r := LabelsOf(layer, cfg);
      && (r.Ok? ==> Below(r.value.0, |layer|, r.value.1) && 1 <= r.value.1 < |layer|)
      && (cfg.ahc ==> r.Ok? && Onto(r.value.0, r.value.1))
  {
    if cfg.ahc {
      AhcOnto(layer, cfg);
    } else {
      var count := OptimalCount(layer, cfg);
      if count.Ok? {
        assert Rows(cfg.probs(layer, count.value), |layer|, count.value);
      }
    }
  }

  /** Labels and cluster count of a layer of at least three items. */
  method LabelLayer<E(!new)>(layer: seq<Chunk<E>>, cfg: Clustering<E>) returns (r: Result<(seq<nat>, nat)>)
    requires Sound(cfg) && |layer| >= 3
    ensures r == LabelsOf(layer, cfg)
  {
    hide Adjusted, AhcLabels, Compact, OptimalCount, FirstLabels;
    var labels, n;
    if cfg.ahc {
      var raw := GetClustersAhc(layer, cfg);
      if |Unique(raw)| > 1 {
        labels := AdjustTreeNodes(layer, raw, 5, cfg);
      } else {
        labels := raw;
      }
      n := |Unique(labels)|;
      labels := Compact(labels);
    } else {
      var count := GetOptimalClusters(layer, cfg);
      if count.Raised? {
        return Raised(count.error);
      }
      n := count.value;
      labels := [];
      if n > 1 {
        assert Rows(cfg.probs(layer, n), |layer|, n);
        var first := FirstAbove(cfg.probs(layer, n), cfg.threshold, n);
        if first.Raised? {
          return Raised(first.error);
        }
        labels := first.value;
      }
    }
    if n == 1 {
      labels := Zeros(|layer|);
    }
    return Ok((labels, n));
  }

  // ------------------------------------------------- when a layer cannot be clustered

  /** Component c is the first above the threshold for some item. */
  ghost predicate Used(rows: seq<seq<real>>, threshold: real, c: nat) {
    exists i :: 0 <= i < |rows| && First(rows[i], threshold, c)
  }

  /** The layer is refused with this error: only the mixture method refuses. Either there is
      no count below `max_cluster` to try, or, with a best count above one, some item has no
      component above the threshold, or every item has one and some component is first for
      none of them. */
  ghost predicate Refused<E>(layer: seq<Chunk<E>>, cfg: Clustering<E>, e: Failure) {
    && |layer| > 2 && !cfg.ahc
    && match e
       case NoClusterCount => cfg.maxCluster <= 1
       case NoLabel => exists n: nat :: Best(layer, cfg, n) && n > 1 && !AllExceed(cfg.probs(layer, n), cfg.threshold)
       case EmptyCluster => exists n: nat, c: nat ::
         && Best(layer, cfg, n) && c < n && n > 1 && AllExceed(cfg.probs(layer, n), cfg.threshold)
         && !Used(cfg.probs(layer, n), cfg.threshold, c)
  }

  /** Labelling raises exactly for the first two reasons. */
  lemma LabelsRaise<E(!new)>(layer: seq<Chunk<E>>, cfg: Clustering<E>, e: Failure)
    requires Sound(cfg) && |layer| >= 3
    ensures LabelsOf(layer, cfg) == Raised(e) <==> e != EmptyCluster && Refused(layer, cfg, e)
  {
    hide Sound, Adjusted, AhcLabels, Compact, AllExceed, Scores;
    if n: nat :| Best(layer, cfg, n) {
      BestIsOptimal(layer, cfg, n);
    }
    hide OptimalCount, Best;
  }

  /** The labels leave a cluster empty exactly for the third reason. */
  lemma LabelsMiss<E(!new)>(layer: seq<Chunk<E>>, cfg: Clustering<E>)
    requires Sound(cfg) && |layer| >= 3 && LabelsOf(layer, cfg).Ok?
    ensures var (labels, n) := LabelsOf(layer, cfg).value; Onto(labels, n) <==> !Refused(layer, cfg, EmptyCluster)
  {
    if cfg.ahc {
      AhcOnto(layer, cfg);
    } else {
      var n := OptimalCount(layer, cfg).value;
      BestOnly(layer, cfg, n);
      var rows := cfg.probs(layer, n);
      assert Rows(rows, |layer|, n);
      if n == 1 {
        var zeros := Zeros(|layer|);
        assert zeros[0] == 0;
      } else {
        FirstsUsed(rows, cfg.threshold, n);
      }
      hide Sound, OptimalCount, Best, FirstLabels, Used, AllExceed;
    }
  }

  lemma BestOnly<E>(layer: seq<Chunk<E>>, cfg: Clustering<E>, n: nat)
    requires OptimalCount(layer, cfg) == Ok(n)
    ensures forall m: nat :: Best(layer, cfg, m) <==> m == n
  {
    forall m: nat | Best(layer, cfg, m) ensures m == n { BestIsOptimal(layer, cfg, m); }
  }

  lemma FirstsUsed(rows: seq<seq<real>>, threshold: real, n: nat)
    requires Rows(rows, |rows|, n)
    ensures var r := FirstLabels(rows, threshold);
      r.Ok? ==> forall c: nat :: c in r.value <==> Used(rows, threshold, c)
  {
    var r := FirstLabels(rows, threshold);
    if r.Ok? {
      forall c: nat | Used(rows, threshold, c) ensures c in r.value {
        var i :| 0 <= i < |rows| && First(rows[i], threshold, c);
        assert First(rows[i], threshold, r.value[i]);
        assert c == r.value[i];
      }
    }
  }
}
