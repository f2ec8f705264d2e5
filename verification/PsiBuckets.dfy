/** `_split_psi_buckets`: a worklist that cuts the leaves into bounded buckets. */
module PsiBuckets {

  // ------------------------------------------------- lists of lists

  function Flatten(ss: seq<seq<nat>>): seq<nat> {
    if ss == [] then [] else ss[0] + Flatten(ss[1..])
  }

  lemma {:induction false} FlattenAppend(a: seq<seq<nat>>, b: seq<seq<nat>>)
    ensures Flatten(a + b) == Flatten(a) + Flatten(b)
    decreases |a|
  {
    if a == [] {
      assert a + b == b;
    } else {
      assert (a + b)[1..] == a[1..] + b;
      FlattenAppend(a[1..], b);
    }
  }

  lemma FlattenNone()
    ensures Flatten([]) == []
  {
  }

  lemma FlattenOne(s: seq<nat>)
    ensures Flatten([s]) == s
  {
    assert [s][1..] == [];
    assert s + [] == s;
  }

  ghost predicate NonEmpty(ss: seq<seq<nat>>) {
    forall i :: 0 <= i < |ss| ==> ss[i] != []
  }

  /** Strictly increasing, as every list of positions here is. */
  ghost predicate Ascending(s: seq<nat>) {
    forall i, j :: 0 <= i < j < |s| ==> s[i] < s[j]
  }

  ghost predicate AllAscending(ss: seq<seq<nat>>) {
    forall i :: 0 <= i < |ss| ==> Ascending(ss[i])
  }

  // ------------------------------------------------- one split

  /** An arbitrary clustering: what k-means would say about position i of a group when asked
      for `fanout` clusters, reduced into range. */
  type Labeller = (seq<nat>, nat, nat) -> nat

  function Label(cluster: Labeller, group: seq<nat>, fanout: nat, i: nat): (c: nat)
    requires fanout > 0
    ensures c < fanout
  {
    cluster(group, fanout, i) % fanout
  }

  lemma FewParts(size: nat, bucketSize: nat)
    requires size > bucketSize >= 2
    ensures (size + bucketSize - 1) / bucketSize < size
  {
    assert (size - 1) * (bucketSize - 1) > 0;
    assert size * bucketSize > size + bucketSize - 1;
  }

  /** `min(max(2, ceil(size / bucket_size)), size, 32)`. */
  function Fanout(size: nat, bucketSize: nat): (fanout: nat)
    requires size > bucketSize >= 2
    ensures 2 <= fanout < size
  {
    FewParts(size, bucketSize);
    var wanted := (size + bucketSize - 1) / bucketSize;
    var atLeastTwo := if wanted < 2 then 2 else wanted;
    var capped := if atLeastTwo < size then atLeastTwo else size;
    if capped < 32 then capped else 32
  }

  lemma CeilDivision(x: nat, d: nat)
    requires d > 0 && x > 0
    ensures var q := (x + d - 1) / d; q * d >= x && (q - 1) * d < x
  {
    var q, r := (x + d - 1) / d, (x + d - 1) % d;
    assert x + d - 1 == q * d + r && 0 <= r < d;
    assert (q - 1) * d == q * d - d;
  }

  /** As few parts as let equal parts fit, but at least 2 and at most 32. */
  lemma FanoutLeast(size: nat, bucketSize: nat)
    requires size > bucketSize >= 2
    ensures 2 <= Fanout(size, bucketSize) <= 32
    ensures Fanout(size, bucketSize) * bucketSize >= size || Fanout(size, bucketSize) == 32
    ensures Fanout(size, bucketSize) > 2 ==> (Fanout(size, bucketSize) - 1) * bucketSize < size
  {
    FewParts(size, bucketSize);
    CeilDivision(size, bucketSize);
    var wanted, fanout := (size + bucketSize - 1) / bucketSize, Fanout(size, bucketSize);
    if fanout < wanted {
      Monotone(fanout, wanted, bucketSize);
    } else if wanted < 2 {
      Monotone(wanted, fanout, bucketSize);
    }
  }

  lemma Monotone(a: nat, b: nat, d: nat)
    requires a <= b
    ensures a * d <= b * d && (a - 1) * d <= (b - 1) * d
  {
  }

  /** The members of `group[m..]` with label c. */
  function Select(cluster: Labeller, group: seq<nat>, fanout: nat, c: nat, m: nat): seq<nat>
    requires fanout > 0 && m <= |group|
    decreases |group| - m
  {
    if m == |group| then []
    else (if Label(cluster, group, fanout, m) == c then [group[m]] else []) + Select(cluster, group, fanout, c, m + 1)
  }

  /** The members of `group[m..]` with a label below c. */
  ghost function SelectBelow(cluster: Labeller, group: seq<nat>, fanout: nat, c: nat, m: nat): seq<nat>
    requires fanout > 0 && m <= |group|
    decreases |group| - m
  {
    if m == |group| then []
    else (if Label(cluster, group, fanout, m) < c then [group[m]] else []) + SelectBelow(cluster, group, fanout, c, m + 1)
  }

  lemma {:induction false} SelectNext(cluster: Labeller, group: seq<nat>, fanout: nat, c: nat, m: nat)
    requires fanout > 0 && m <= |group|
    ensures multiset(SelectBelow(cluster, group, fanout, c + 1, m))
            == multiset(SelectBelow(cluster, group, fanout, c, m)) + multiset(Select(cluster, group, fanout, c, m))
    decreases |group| - m
  {
    if m < |group| {
      var l, x := Label(cluster, group, fanout, m), group[m];
      assert SelectBelow(cluster, group, fanout, c + 1, m) == (if l < c + 1 then [x] else []) + SelectBelow(cluster, group, fanout, c + 1, m + 1);
      assert SelectBelow(cluster, group, fanout, c, m) == (if l < c then [x] else []) + SelectBelow(cluster, group, fanout, c, m + 1);
      assert Select(cluster, group, fanout, c, m) == (if l == c then [x] else []) + Select(cluster, group, fanout, c, m + 1);
      hide Select, SelectBelow, Label;
      SelectNext(cluster, group, fanout, c, m + 1);
      ConsBelow(x, l, c, SelectBelow(cluster, group, fanout, c, m + 1),
                Select(cluster, group, fanout, c, m + 1), SelectBelow(cluster, group, fanout, c + 1, m + 1));
    }
  }

  lemma ConsBelow(x: nat, l: nat, c: nat, below: seq<nat>, at: seq<nat>, next: seq<nat>)
    requires multiset(next) == multiset(below) + multiset(at)
    ensures multiset((if l < c + 1 then [x] else []) + next)
            == multiset((if l < c then [x] else []) + below) + multiset((if l == c then [x] else []) + at)
  {
    if l < c {
      assert [] + at == at;
    } else if l == c {
      assert [] + below == below;
    } else {
      assert [] + at == at && [] + below == below && [] + next == next;
    }
  }

  lemma {:induction false} SelectNone(cluster: Labeller, group: seq<nat>, fanout: nat, m: nat)
    requires fanout > 0 && m <= |group|
    ensures SelectBelow(cluster, group, fanout, 0, m) == []
    ensures SelectBelow(cluster, group, fanout, fanout, m) == group[m..]
    decreases |group| - m
  {
    if m < |group| {
      SelectNone(cluster, group, fanout, m + 1);
      assert group[m..] == [group[m]] + group[m + 1..];
    }
  }

  lemma {:induction false} SelectAscending(cluster: Labeller, group: seq<nat>, fanout: nat, c: nat, m: nat)
    requires fanout > 0 && m <= |group| && Ascending(group)
    ensures Ascending(Select(cluster, group, fanout, c, m))
    ensures forall x :: x in Select(cluster, group, fanout, c, m) ==> x in group[m..]
    decreases |group| - m
  {
    if m < |group| {
      SelectAscending(cluster, group, fanout, c, m + 1);
      var rest := Select(cluster, group, fanout, c, m + 1);
      forall i | 0 <= i < |rest| ensures group[m] < rest[i] {
        assert rest[i] in group[m + 1..];
      }
      assert group[m..] == [group[m]] + group[m + 1..];
    }
  }

  ghost predicate HasLabel(cluster: Labeller, group: seq<nat>, fanout: nat, x: nat, c: nat, from: nat)
    requires fanout > 0
  {
    exists m: nat :: from <= m < |group| && group[m] == x && Label(cluster, group, fanout, m) == c
  }

  lemma {:induction false} SelectHasLabel(cluster: Labeller, group: seq<nat>, fanout: nat, c: nat, m: nat)
    requires fanout > 0 && m <= |group|
    ensures forall x :: x in Select(cluster, group, fanout, c, m) <==> HasLabel(cluster, group, fanout, x, c, m)
    decreases |group| - m
  {
    hide Label;
    if m < |group| {
      SelectHasLabel(cluster, group, fanout, c, m + 1);
      forall x | HasLabel(cluster, group, fanout, x, c, m) ensures x in Select(cluster, group, fanout, c, m) {
        var k: nat :| m <= k < |group| && group[k] == x && Label(cluster, group, fanout, k) == c;
        assert k > m ==> HasLabel(cluster, group, fanout, x, c, m + 1);
      }
    }
  }

  /** The part holds exactly the members of the group with one of the labels. */
  ghost predicate OneLabel(cluster: Labeller, group: seq<nat>, fanout: nat, part: seq<nat>)
    requires fanout > 0
  {
    exists c: nat :: c < fanout && AllLabelled(cluster, group, fanout, part, c)
  }

  ghost predicate AllLabelled(cluster: Labeller, group: seq<nat>, fanout: nat, part: seq<nat>, c: nat)
    requires fanout > 0
  {
    forall x :: x in part <==> HasLabel(cluster, group, fanout, x, c, 0)
  }

  ghost function Unless(part: seq<nat>): seq<seq<nat>> {
    if part == [] then [] else [part]
  }

  /** The parts with labels below m, in the order of the labels, without the empty ones. */
  ghost function ByLabels(cluster: Labeller, group: seq<nat>, fanout: nat, m: nat): seq<seq<nat>>
    requires fanout > 0
  {
    if m == 0 then []
    else ByLabels(cluster, group, fanout, m - 1) + Unless(Select(cluster, group, fanout, m - 1, 0))
  }

  /** No part is empty, each holds exactly the members with one label, and together they are
      the members with the labels so far. */
  lemma {:induction false} ByLabelsMean(cluster: Labeller, group: seq<nat>, fanout: nat, m: nat)
    requires fanout > 0 && m <= fanout
    ensures NonEmpty(ByLabels(cluster, group, fanout, m)) && |ByLabels(cluster, group, fanout, m)| <= m
    ensures multiset(Flatten(ByLabels(cluster, group, fanout, m))) == multiset(SelectBelow(cluster, group, fanout, m, 0))
    ensures forall k :: 0 <= k < |ByLabels(cluster, group, fanout, m)| ==>
      OneLabel(cluster, group, fanout, ByLabels(cluster, group, fanout, m)[k])
    decreases m
  {
    hide Select, SelectBelow, Flatten, Label, HasLabel;
    FlattenNone();
    SelectNone(cluster, group, fanout, 0);
    if m > 0 {
      var c := m - 1;
      ByLabelsMean(cluster, group, fanout, c);
      var part := Select(cluster, group, fanout, c, 0);
      SelectNext(cluster, group, fanout, c, 0);
      SelectHasLabel(cluster, group, fanout, c, 0);
      assert AllLabelled(cluster, group, fanout, part, c);
      var before := ByLabels(cluster, group, fanout, c);
      assert ByLabels(cluster, group, fanout, m) == if part == [] then before else before + [part];
      FlattenAppend(before, [part]);
      FlattenOne(part);
    }
  }

  lemma {:induction false} ByLabelsAscend(cluster: Labeller, group: seq<nat>, fanout: nat, m: nat)
    requires fanout > 0 && Ascending(group)
    ensures AllAscending(ByLabels(cluster, group, fanout, m))
    decreases m
  {
    hide Select, Ascending;
    if m > 0 {
      ByLabelsAscend(cluster, group, fanout, m - 1);
      SelectAscending(cluster, group, fanout, m - 1, 0);
    }
  }

  /** `[group[labels == c] for c in range(fanout)]` without the empty ones. */
  method ByLabel(cluster: Labeller, group: seq<nat>, fanout: nat) returns (parts: seq<seq<nat>>)
    requires fanout > 0 && Ascending(group)
    ensures parts == ByLabels(cluster, group, fanout, fanout)
    ensures NonEmpty(parts) && AllAscending(parts) && |parts| <= fanout
    ensures multiset(Flatten(parts)) == multiset(group)
    ensures forall k :: 0 <= k < |parts| ==> OneLabel(cluster, group, fanout, parts[k])
  {
    hide Select, SelectBelow, Flatten, Label, Ascending, HasLabel;
    parts := [];
    for c := 0 to fanout
      invariant parts == ByLabels(cluster, group, fanout, c)
    {
      var part := Select(cluster, group, fanout, c, 0);
      if part != [] {
        parts := parts + [part];
      }
    }
    ByLabelsMean(cluster, group, fanout, fanout);
    ByLabelsAscend(cluster, group, fanout, fanout);
    SelectNone(cluster, group, fanout, 0);
    assert group[0..] == group;
  }

  lemma AscendingSlice(group: seq<nat>, i: nat, j: nat)
    requires Ascending(group) && i <= j <= |group|
    ensures Ascending(group[i..j])
  {
  }

  ghost function SlicesOf(group: seq<nat>, size: nat): seq<seq<nat>>
    requires size > 0
    decreases |group|
  {
    if group == [] then []
    else if |group| <= size then [group]
    else [group[..size]] + SlicesOf(group[size..], size)
  }

  /** Slice k starts at member k * size and is full unless it is the last. */
  lemma {:induction false} SliceAt(group: seq<nat>, size: nat, k: nat)
    requires size > 0 && k * size < |group|
    ensures k < |SlicesOf(group, size)|
    ensures SlicesOf(group, size)[k] == group[k * size..if (k + 1) * size < |group| then (k + 1) * size else |group|]
    decreases k
  {
    if k > 0 {
      TimesMore(k, size);
      var rest := group[size..];
      var start, stop := k * size, if (k + 1) * size < |group| then (k + 1) * size else |group|;
      assert start - size == (k - 1) * size >= 0;
      SliceAt(rest, size, k - 1);
      SliceOfRest(group, size, start, stop);
    }
  }

  lemma SliceOfRest(group: seq<nat>, size: nat, start: nat, stop: nat)
    requires size <= start <= stop <= |group|
    ensures group[size..][start - size..stop - size] == group[start..stop]
  {
  }

  lemma TimesMore(k: nat, size: nat)
    requires k > 0
    ensures k * size == (k - 1) * size + size && (k + 1) * size == k * size + size && (k - 1) * size >= 0
  {
  }

  lemma {:induction false} SlicesMean(group: seq<nat>, size: nat)
    requires size >= 2
    ensures Flatten(SlicesOf(group, size)) == group && NonEmpty(SlicesOf(group, size))
    ensures forall k :: 0 <= k < |SlicesOf(group, size)| ==> |SlicesOf(group, size)[k]| <= size
    ensures |SlicesOf(group, size)| <= |group| && (|group| > size ==> 2 <= |SlicesOf(group, size)| < |group|)
    decreases |group|
  {
    if group == [] {
      FlattenNone();
    } else if |group| <= size {
      FlattenOne(group);
    } else {
      hide Flatten;
      SlicesMean(group[size..], size);
      FlattenAppend([group[..size]], SlicesOf(group[size..], size));
      FlattenOne(group[..size]);
      assert group == group[..size] + group[size..];
    }
  }

  lemma {:induction false} SlicesAscend(group: seq<nat>, size: nat)
    requires size > 0 && Ascending(group)
    ensures AllAscending(SlicesOf(group, size))
    decreases |group|
  {
    if |group| > size {
      AscendingSlice(group, size, |group|);
      AscendingSlice(group, 0, size);
      hide Ascending;
      SlicesAscend(group[size..], size);
    }
  }

  lemma SliceNext(group: seq<nat>, size: nat, start: nat, stop: nat)
    requires size > 0 && start < |group| && stop == if start + size < |group| then start + size else |group|
    ensures SlicesOf(group[start..], size) == [group[start..stop]] + SlicesOf(group[stop..], size)
  {
    var rest := group[start..];
    if stop < |group| {
      assert rest[..size] == group[start..stop] && rest[size..] == group[stop..];
    } else {
      assert rest == group[start..stop] && group[stop..] == [];
      assert |rest| <= size;
    }
  }

  /** Consecutive slices of at most `size` members. */
  method Slices(group: seq<nat>, size: nat) returns (parts: seq<seq<nat>>)
    requires size >= 2 && |group| > size && Ascending(group)
    ensures parts == SlicesOf(group, size)
    ensures NonEmpty(parts) && AllAscending(parts) && 2 <= |parts| < |group|
    ensures Flatten(parts) == group && forall k :: 0 <= k < |parts| ==> |parts[k]| <= size
  {
    hide Flatten, Ascending, SlicesOf;
    parts := [];
    var start := 0;
    assert group[0..] == group;
    while start < |group|
      invariant start <= |group| && parts + SlicesOf(group[start..], size) == SlicesOf(group, size)
    {
      var stop := if start + size < |group| then start + size else |group|;
      SliceNext(group, size, start, stop);
      parts := parts + [group[start..stop]];
      start := stop;
    }
    assert group[start..] == [];
    SlicesMean([], size);
    SlicesMean(group, size);
    SlicesAscend(group, size);
  }

  // ------------------------------------------------- the buckets, as a value

  /** What a group of the worklist is cut into: the parts of its labels, or slices when all
      its members have one label. */
  ghost function PartsOf(cluster: Labeller, group: seq<nat>, bucketSize: nat): (parts: seq<seq<nat>>)
    requires |group| > bucketSize >= 2
  {
    var parts := ByLabels(cluster, group, Fanout(|group|, bucketSize), Fanout(|group|, bucketSize));
    if |parts| <= 1 then SlicesOf(group, bucketSize) else parts
  }

  lemma PartsMean(cluster: Labeller, group: seq<nat>, bucketSize: nat)
    requires |group| > bucketSize >= 2
    ensures NonEmpty(PartsOf(cluster, group, bucketSize)) && 2 <= |PartsOf(cluster, group, bucketSize)| < |group|
    ensures multiset(Flatten(PartsOf(cluster, group, bucketSize))) == multiset(group)
    ensures forall k :: 0 <= k < |PartsOf(cluster, group, bucketSize)| ==> |PartsOf(cluster, group, bucketSize)[k]| < |group|
  {
    var fanout := Fanout(|group|, bucketSize);
    ByLabelsMean(cluster, group, fanout, fanout);
    SelectNone(cluster, group, fanout, 0);
    assert group[0..] == group;
    SlicesMean(group, bucketSize);
    hide Flatten, ByLabels, SlicesOf, SelectBelow, OneLabel;
    PartsSmaller(PartsOf(cluster, group, bucketSize), |group|);
    assert |multiset(Flatten(PartsOf(cluster, group, bucketSize)))| == |group|;
  }

  /** Of two or more non-empty parts none is the whole. */
  lemma {:induction false} PartsSmaller(parts: seq<seq<nat>>, n: nat)
    requires NonEmpty(parts)
    ensures |parts| <= |Flatten(parts)|
    ensures |Flatten(parts)| <= n && |parts| >= 2 ==> forall k :: 0 <= k < |parts| ==> |parts[k]| < n
    ensures |Flatten(parts)| <= n ==> forall k :: 0 <= k < |parts| ==> |parts[k]| <= n
    decreases |parts|
  {
    if parts != [] {
      assert parts[0] != [];
      var rest := |Flatten(parts[1..])|;
      PartsSmaller(parts[1..], rest);
      forall k | 0 < k < |parts| ensures |parts[k]| <= rest { assert parts[k] == parts[1..][k - 1]; }
    }
  }

  /** The buckets a group ends in. */
  ghost function Cuts(cluster: Labeller, group: seq<nat>, bucketSize: nat): seq<seq<nat>>
    requires bucketSize >= 2
    decreases |group|, 0
  {
    if |group| <= bucketSize then [group] else
    PartsMean(cluster, group, bucketSize);
    CutsOf(cluster, PartsOf(cluster, group, bucketSize), bucketSize, |group|)
  }

  ghost function CutsOf(cluster: Labeller, groups: seq<seq<nat>>, bucketSize: nat, bound: nat): seq<seq<nat>>
    requires bucketSize >= 2 && forall k :: 0 <= k < |groups| ==> |groups[k]| < bound
    decreases bound, 0, |groups|
  {
    if groups == [] then []
    else Cuts(cluster, groups[0], bucketSize) + CutsOf(cluster, groups[1..], bucketSize, bound)
  }

  lemma {:induction false} CutsAppend(cluster: Labeller, a: seq<seq<nat>>, b: seq<seq<nat>>, bucketSize: nat, bound: nat)
    requires bucketSize >= 2
    requires (forall k :: 0 <= k < |a| ==> |a[k]| < bound) && (forall k :: 0 <= k < |b| ==> |b[k]| < bound)
    ensures CutsOf(cluster, a + b, bucketSize, bound) == CutsOf(cluster, a, bucketSize, bound) + CutsOf(cluster, b, bucketSize, bound)
    decreases |a|
  {
    hide Cuts;
    if a == [] {
      assert a + b == b;
    } else {
      assert (a + b)[1..] == a[1..] + b;
      CutsAppend(cluster, a[1..], b, bucketSize, bound);
    }
  }

  lemma {:induction false} CutsBound(cluster: Labeller, groups: seq<seq<nat>>, bucketSize: nat, low: nat, high: nat)
    requires bucketSize >= 2 && (forall k :: 0 <= k < |groups| ==> |groups[k]| < low) && low <= high
    ensures CutsOf(cluster, groups, bucketSize, low) == CutsOf(cluster, groups, bucketSize, high)
    decreases |groups|
  {
    hide Cuts;
    if groups != [] {
      CutsBound(cluster, groups[1..], bucketSize, low, high);
    }
  }

  // ------------------------------------------------- the worklist

  /** Buckets a group can still become, at most. */
  ghost function Weight(group: seq<nat>, bucketSize: nat): int {
    if |group| <= bucketSize then 1 else |group| - 1
  }

  ghost function Weights(groups: seq<seq<nat>>, bucketSize: nat): int {
    if groups == [] then 0 else Weight(groups[0], bucketSize) + Weights(groups[1..], bucketSize)
  }

  lemma {:induction false} WeightsAppend(a: seq<seq<nat>>, b: seq<seq<nat>>, bucketSize: nat)
    ensures Weights(a + b, bucketSize) == Weights(a, bucketSize) + Weights(b, bucketSize)
    decreases |a|
  {
    if a == [] {
      assert a + b == b;
    } else {
      assert (a + b)[1..] == a[1..] + b;
      WeightsAppend(a[1..], b, bucketSize);
    }
  }

  /** The pigeonhole: parts fewer than their members cannot all be singletons. */
  lemma {:induction false} WeightsBound(parts: seq<seq<nat>>, bucketSize: nat)
    requires NonEmpty(parts) && bucketSize >= 2
    ensures |parts| <= |Flatten(parts)| && Weights(parts, bucketSize) <= |Flatten(parts)|
    ensures |parts| < |Flatten(parts)| ==> Weights(parts, bucketSize) < |Flatten(parts)|
    decreases |parts|
  {
    if parts != [] {
      assert parts[0] != [];
      WeightsBound(parts[1..], bucketSize);
    }
  }

  ghost predicate Under(groups: seq<seq<nat>>, bound: nat) {
    forall k :: 0 <= k < |groups| ==> |groups[k]| < bound
  }

  lemma CutsPop(cluster: Labeller, groups: seq<seq<nat>>, bucketSize: nat, bound: nat)
    requires bucketSize >= 2 && groups != [] && Under(groups, bound)
    ensures var init, last := groups[..|groups| - 1], groups[|groups| - 1];
      Under(init, bound) && CutsOf(cluster, groups, bucketSize, bound) == CutsOf(cluster, init, bucketSize, bound) + Cuts(cluster, last, bucketSize)
  {
    hide Cuts;
    var init, last := groups[..|groups| - 1], groups[|groups| - 1];
    assert groups == init + [last];
    CutsAppend(cluster, init, [last], bucketSize, bound);
    var one: seq<seq<nat>> := [last];
    assert one[1..] == [];
    assert CutsOf(cluster, [last], bucketSize, bound) == Cuts(cluster, last, bucketSize) + [];
  }

  /** Cutting one group of a worklist changes none of the buckets that come out. */
  lemma CutsSplit(cluster: Labeller, init: seq<seq<nat>>, group: seq<nat>, bucketSize: nat, bound: nat)
    requires |group| > bucketSize >= 2 && Under(init, bound) && |group| < bound
    ensures var parts := PartsOf(cluster, group, bucketSize);
      && Under(init + parts, bound)
      && CutsOf(cluster, init + parts, bucketSize, bound) == CutsOf(cluster, init, bucketSize, bound) + Cuts(cluster, group, bucketSize)
  {
    PartsMean(cluster, group, bucketSize);
    var parts := PartsOf(cluster, group, bucketSize);
    assert Cuts(cluster, group, bucketSize) == CutsOf(cluster, parts, bucketSize, |group|);
    hide Cuts, PartsOf;
    CutsBound(cluster, parts, bucketSize, |group|, bound);
    CutsAppend(cluster, init, parts, bucketSize, bound);
  }

  // ------------------------------------------------- what the buckets say about the labels

  lemma {:induction false} InCutsOf(cluster: Labeller, groups: seq<seq<nat>>, bucketSize: nat, bound: nat, b: seq<nat>)
    requires bucketSize >= 2 && Under(groups, bound)
    ensures b in CutsOf(cluster, groups, bucketSize, bound) <==> exists k :: 0 <= k < |groups| && b in Cuts(cluster, groups[k], bucketSize)
    decreases |groups|
  {
    hide Cuts;
    if groups != [] {
      InCutsOf(cluster, groups[1..], bucketSize, bound, b);
      if k :| 0 <= k < |groups| - 1 && b in Cuts(cluster, groups[1..][k], bucketSize) {
        assert groups[k + 1] == groups[1..][k];
      }
      if k :| 0 < k < |groups| && b in Cuts(cluster, groups[k], bucketSize) {
        assert groups[1..][k - 1] == groups[k];
      }
    }
  }

  /** A group that fits is a bucket; the buckets of any other are those of its parts. */
  lemma BucketsOfParts(cluster: Labeller, group: seq<nat>, bucketSize: nat, b: seq<nat>)
    requires bucketSize >= 2
    ensures |group| <= bucketSize ==> (b in Cuts(cluster, group, bucketSize) <==> b == group)
    ensures |group| > bucketSize ==>
      (b in Cuts(cluster, group, bucketSize)
       <==> exists k :: 0 <= k < |PartsOf(cluster, group, bucketSize)|
              && b in Cuts(cluster, PartsOf(cluster, group, bucketSize)[k], bucketSize))
  {
    if |group| > bucketSize {
      PartsMean(cluster, group, bucketSize);
      InCutsOf(cluster, PartsOf(cluster, group, bucketSize), bucketSize, |group|, b);
    }
  }

  lemma {:induction false} BucketInside(cluster: Labeller, group: seq<nat>, bucketSize: nat, b: seq<nat>, x: nat)
    requires bucketSize >= 2 && b in Cuts(cluster, group, bucketSize) && x in b
    ensures x in group && |b| <= bucketSize
    decreases |group|
  {
    BucketsOfParts(cluster, group, bucketSize, b);
    if |group| > bucketSize {
      hide Cuts, PartsOf;
      PartsMean(cluster, group, bucketSize);
      var parts := PartsOf(cluster, group, bucketSize);
      var k :| 0 <= k < |parts| && b in Cuts(cluster, parts[k], bucketSize);
      BucketInside(cluster, parts[k], bucketSize, b, x);
      MemberOfFlatten(parts, k, x);
      assert x in multiset(Flatten(parts));
    }
  }

  lemma {:induction false} MemberOfFlatten(parts: seq<seq<nat>>, k: nat, x: nat)
    requires k < |parts| && x in parts[k]
    ensures x in Flatten(parts)
    decreases |parts|
  {
    if k > 0 {
      MemberOfFlatten(parts[1..], k - 1, x);
    }
  }

  /** Members of a bucket got one label when their group was cut by labels. */
  lemma SameBucketSameLabel(cluster: Labeller, group: seq<nat>, bucketSize: nat, b: seq<nat>, i: nat, j: nat)
    requires |group| > bucketSize >= 2 && Ascending(group) && i < |group| && j < |group|
    requires b in Cuts(cluster, group, bucketSize) && group[i] in b && group[j] in b
    requires |ByLabels(cluster, group, Fanout(|group|, bucketSize), Fanout(|group|, bucketSize))| > 1
    ensures Label(cluster, group, Fanout(|group|, bucketSize), i) == Label(cluster, group, Fanout(|group|, bucketSize), j)
  {
    hide Cuts, ByLabels, Label, Fanout;
    var part := PartOfBucket(cluster, group, bucketSize, b);
    BucketInside(cluster, part, bucketSize, b, group[i]);
    BucketInside(cluster, part, bucketSize, b, group[j]);
    OneOf(cluster, group, Fanout(|group|, bucketSize), part, i, j);
  }

  lemma PartOfBucket(cluster: Labeller, group: seq<nat>, bucketSize: nat, b: seq<nat>) returns (part: seq<nat>)
    requires |group| > bucketSize >= 2 && b in Cuts(cluster, group, bucketSize)
    requires |ByLabels(cluster, group, Fanout(|group|, bucketSize), Fanout(|group|, bucketSize))| > 1
    ensures b in Cuts(cluster, part, bucketSize) && OneLabel(cluster, group, Fanout(|group|, bucketSize), part)
  {
    hide Cuts, ByLabels, OneLabel, Flatten, SelectBelow, Fanout;
    var fanout := Fanout(|group|, bucketSize);
    BucketsOfParts(cluster, group, bucketSize, b);
    ByLabelsMean(cluster, group, fanout, fanout);
    var parts := ByLabels(cluster, group, fanout, fanout);
    assert parts == PartsOf(cluster, group, bucketSize);
    var k :| 0 <= k < |parts| && b in Cuts(cluster, parts[k], bucketSize);
    part := parts[k];
  }

  lemma OneOf(cluster: Labeller, group: seq<nat>, fanout: nat, part: seq<nat>, i: nat, j: nat)
    requires fanout > 0 && Ascending(group) && OneLabel(cluster, group, fanout, part)
    requires i < |group| && j < |group| && group[i] in part && group[j] in part
    ensures Label(cluster, group, fanout, i) == Label(cluster, group, fanout, j)
  {
    hide Label;
    var c: nat :| c < fanout && AllLabelled(cluster, group, fanout, part, c);
    assert HasLabel(cluster, group, fanout, group[i], c, 0) && HasLabel(cluster, group, fanout, group[j], c, 0);
  }

  /** The members of one label are a bucket when they fit. */
  lemma OneLabelBucket(cluster: Labeller, group: seq<nat>, bucketSize: nat, c: nat)
    requires |group| > bucketSize >= 2 && c < Fanout(|group|, bucketSize)
    requires var part := Select(cluster, group, Fanout(|group|, bucketSize), c, 0); 0 < |part| <= bucketSize
    requires |ByLabels(cluster, group, Fanout(|group|, bucketSize), Fanout(|group|, bucketSize))| > 1
    ensures Select(cluster, group, Fanout(|group|, bucketSize), c, 0) in Cuts(cluster, group, bucketSize)
  {
    var fanout := Fanout(|group|, bucketSize);
    var part := Select(cluster, group, fanout, c, 0);
    SelectListed(cluster, group, fanout, c, fanout);
    BucketsOfParts(cluster, group, bucketSize, part);
    BucketsOfParts(cluster, part, bucketSize, part);
    var parts := PartsOf(cluster, group, bucketSize);
    hide Select, ByLabels, Cuts;
    var k :| 0 <= k < |parts| && parts[k] == part;
    assert part in Cuts(cluster, parts[k], bucketSize);
  }

  lemma {:induction false} SelectListed(cluster: Labeller, group: seq<nat>, fanout: nat, c: nat, m: nat)
    requires c < m && fanout > 0 && Select(cluster, group, fanout, c, 0) != []
    ensures Select(cluster, group, fanout, c, 0) in ByLabels(cluster, group, fanout, m)
    decreases m
  {
    hide Select;
    if c < m - 1 {
      SelectListed(cluster, group, fanout, c, m - 1);
    }
  }

  /** One group of the worklist: cut by labels, or into slices when the labels do not split it. */
  method SplitGroup(cluster: Labeller, group: seq<nat>, bucketSize: nat) returns (parts: seq<seq<nat>>)
    requires bucketSize >= 2 && |group| > bucketSize && Ascending(group)
    ensures parts == PartsOf(cluster, group, bucketSize)
    ensures NonEmpty(parts) && AllAscending(parts) && 2 <= |parts| < |group|
    ensures multiset(Flatten(parts)) == multiset(group)
  {
    var fanout := Fanout(|group|, bucketSize);
    parts := ByLabel(cluster, group, fanout);
    if |parts| <= 1 {
      parts := Slices(group, bucketSize);
    }
  }

  /** Groups and buckets together hold every position once, and the buckets fit. */
  ghost predicate Covering(n: nat, groups: seq<seq<nat>>, buckets: seq<seq<nat>>, bucketSize: nat) {
    && NonEmpty(groups) && NonEmpty(buckets) && AllAscending(groups) && AllAscending(buckets)
    && (forall i :: 0 <= i < |buckets| ==> |buckets[i]| <= bucketSize)
    && multiset(Flatten(groups)) + multiset(Flatten(buckets)) == multiset(Positions(n))
  }

  function Positions(n: nat): (s: seq<nat>)
    ensures |s| == n && forall i :: 0 <= i < n ==> s[i] == i
  {
    seq(n, i => i)
  }

  lemma PopGroup(groups: seq<seq<nat>>, bucketSize: nat)
    requires |groups| > 0
    ensures var init, last := groups[..|groups| - 1], groups[|groups| - 1];
      && multiset(Flatten(groups)) == multiset(Flatten(init)) + multiset(last)
      && |Flatten(groups)| == |Flatten(init)| + |last|
      && Weights(groups, bucketSize) == Weights(init, bucketSize) + if |last| <= bucketSize then 1 else |last| - 1
  {
    var init, last := groups[..|groups| - 1], groups[|groups| - 1];
    assert groups == init + [last];
    FlattenAppend(init, [last]);
    FlattenOne(last);
    WeightsAppend(init, [last], bucketSize);
    var one: seq<seq<nat>> := [last];
    assert one[1..] == [];
  }

  lemma PushParts(groups: seq<seq<nat>>, parts: seq<seq<nat>>, bucketSize: nat)
    ensures multiset(Flatten(groups + parts)) == multiset(Flatten(groups)) + multiset(Flatten(parts))
    ensures |Flatten(groups + parts)| == |Flatten(groups)| + |Flatten(parts)|
    ensures Weights(groups + parts, bucketSize) == Weights(groups, bucketSize) + Weights(parts, bucketSize)
  {
    FlattenAppend(groups, parts);
    WeightsAppend(groups, parts, bucketSize);
  }

  lemma CoveringPop(n: nat, groups: seq<seq<nat>>, buckets: seq<seq<nat>>, bucketSize: nat)
    requires Covering(n, groups, buckets, bucketSize) && |groups| > 0 && |groups[|groups| - 1]| <= bucketSize
    ensures Covering(n, groups[..|groups| - 1], buckets + [groups[|groups| - 1]], bucketSize)
    ensures |Flatten(groups)| > |Flatten(groups[..|groups| - 1])|
  {
    hide Flatten, Weights, Ascending, Positions;
    var last := groups[|groups| - 1];
    PopGroup(groups, bucketSize);
    PushParts(buckets, [last], bucketSize);
    FlattenOne(last);
    assert last != [];
  }

  lemma CoveringSplit(n: nat, groups: seq<seq<nat>>, buckets: seq<seq<nat>>, parts: seq<seq<nat>>, bucketSize: nat)
    requires Covering(n, groups, buckets, bucketSize) && |groups| > 0 && NonEmpty(parts) && AllAscending(parts)
    requires multiset(Flatten(parts)) == multiset(groups[|groups| - 1])
    ensures Covering(n, groups[..|groups| - 1] + parts, buckets, bucketSize)
    ensures |Flatten(groups[..|groups| - 1] + parts)| == |Flatten(groups)|
  {
    hide Flatten, Weights, Ascending, Positions;
    PopGroup(groups, bucketSize);
    PushParts(groups[..|groups| - 1], parts, bucketSize);
    assert |multiset(Flatten(parts))| == |Flatten(parts)| && |multiset(groups[|groups| - 1])| == |groups[|groups| - 1]|;
  }

  lemma CoveringStart(n: nat, bucketSize: nat)
    requires n > bucketSize >= 2
    ensures Covering(n, [Positions(n)], [], bucketSize)
    ensures Weights([Positions(n)], bucketSize) == n - 1 && |Flatten([Positions(n)])| == n
    ensures Weights([], bucketSize) == 0
  {
    FlattenOne(Positions(n));
    var one: seq<seq<nat>> := [Positions(n)];
    assert one[1..] == [];
  }

  lemma CoveringParts(n: nat, groups: seq<seq<nat>>, buckets: seq<seq<nat>>, bucketSize: nat)
    requires Covering(n, groups, buckets, bucketSize) && bucketSize >= 2
    ensures |Flatten(groups)| >= |groups|
    ensures |groups| > 0 ==> Ascending(groups[|groups| - 1])
  {
    WeightsBound(groups, bucketSize);
  }

  /** The worklist loop, for any clustering: the buckets are those of the whole, in some order. */
  method CutBuckets(n: nat, bucketSize: nat, cluster: Labeller) returns (buckets: seq<seq<nat>>)
    requires n > bucketSize >= 2
    ensures Covering(n, [], buckets, bucketSize) && |buckets| < n
    ensures multiset(buckets) == multiset(Cuts(cluster, Positions(n), bucketSize))
  {
    hide Covering, Weights, Weight, Flatten, Positions, Ascending, Cuts, CutsOf, PartsOf;
    var groups := [Positions(n)];
    buckets := [];
    CoveringStart(n, bucketSize);
    CutsStart(cluster, Positions(n), bucketSize, n + 1);
    while groups != []
      invariant Covering(n, groups, buckets, bucketSize)
      invariant |buckets| + Weights(groups, bucketSize) < n && |Flatten(groups)| >= |groups|
      invariant Under(groups, n + 1)
      invariant multiset(buckets) + multiset(CutsOf(cluster, groups, bucketSize, n + 1)) == multiset(Cuts(cluster, Positions(n), bucketSize))
      decreases 2 * |Flatten(groups)| - |groups|
    {
      var group := groups[|groups| - 1];
      PopGroup(groups, bucketSize);
      CutsPop(cluster, groups, bucketSize, n + 1);
      CoveringParts(n, groups, buckets, bucketSize);
      var rest := groups[..|groups| - 1];
      if |group| <= bucketSize {
        CoveringPop(n, groups, buckets, bucketSize);
        FittingGroup(cluster, group, bucketSize);
        groups, buckets := rest, buckets + [group];
      } else {
        var parts := SplitGroup(cluster, group, bucketSize);
        CoveringSplit(n, groups, buckets, parts, bucketSize);
        PushParts(rest, parts, bucketSize);
        WeightsBound(parts, bucketSize);
        CutsSplit(cluster, rest, group, bucketSize, n + 1);
        groups := rest + parts;
      }
      CoveringParts(n, groups, buckets, bucketSize);
    }
    CutsNone(cluster, bucketSize, n + 1);
  }

  lemma FittingGroup(cluster: Labeller, group: seq<nat>, bucketSize: nat)
    requires bucketSize >= 2 && |group| <= bucketSize
    ensures Cuts(cluster, group, bucketSize) == [group]
  {
  }

  lemma CutsNone(cluster: Labeller, bucketSize: nat, bound: nat)
    requires bucketSize >= 2
    ensures CutsOf(cluster, [], bucketSize, bound) == []
  {
  }

  lemma CutsStart(cluster: Labeller, group: seq<nat>, bucketSize: nat, bound: nat)
    requires bucketSize >= 2 && |group| < bound
    ensures Under([group], bound) && CutsOf(cluster, [group], bucketSize, bound) == Cuts(cluster, group, bucketSize)
  {
    hide Cuts;
    var one: seq<seq<nat>> := [group];
    assert one[1..] == [];
    assert CutsOf(cluster, [group], bucketSize, bound) == Cuts(cluster, group, bucketSize) + [];
  }

  // ------------------------------------------------- order of the buckets

  /** `key=lambda bucket: (len(bucket), bucket[0])`. */
  predicate KeyBefore(a: seq<nat>, b: seq<nat>)
    requires a != [] && b != []
  {
    |a| < |b| || (|a| == |b| && a[0] <= b[0])
  }

  /** Shorter first, and equal lengths by the first member. */
  lemma KeyOrder(a: seq<nat>, b: seq<nat>)
    requires a != [] && b != []
    ensures !KeyBefore(b, a) <==> |a| < |b| || (|a| == |b| && a[0] < b[0])
    ensures KeyBefore([9], [1, 2]) && !KeyBefore([1, 2], [9]) && KeyBefore([1, 8], [2, 3]) && !KeyBefore([2, 3], [1, 8])
  {
  }

  ghost predicate Ordered(ss: seq<seq<nat>>)
    requires NonEmpty(ss)
  {
    forall i, j :: 0 <= i < j < |ss| ==> KeyBefore(ss[i], ss[j])
  }

  method InsertBucket(ss: seq<seq<nat>>, b: seq<nat>) returns (r: seq<seq<nat>>)
    requires NonEmpty(ss) && Ordered(ss) && b != []
    ensures NonEmpty(r) && Ordered(r) && |r| == |ss| + 1
    ensures multiset(r) == multiset(ss) + multiset{b} && multiset(Flatten(r)) == multiset(Flatten(ss)) + multiset(b)
  {
    var k := |ss|;
    while k > 0 && !KeyBefore(ss[k - 1], b)
      invariant 0 <= k <= |ss|
      invariant forall i :: k <= i < |ss| ==> KeyBefore(b, ss[i])
    {
      k := k - 1;
    }
    r := ss[..k] + [b] + ss[k..];
    InsertOrdered(ss, b, k);
    InsertFlatten(ss, b, k);
  }

  lemma InsertOrdered(ss: seq<seq<nat>>, b: seq<nat>, k: nat)
    requires NonEmpty(ss) && Ordered(ss) && b != [] && k <= |ss|
    requires forall i :: k <= i < |ss| ==> KeyBefore(b, ss[i])
    requires k > 0 ==> KeyBefore(ss[k - 1], b)
    ensures NonEmpty(ss[..k] + [b] + ss[k..]) && Ordered(ss[..k] + [b] + ss[k..])
  {
    var r := ss[..k] + [b] + ss[k..];
    forall i | 0 <= i < |r| ensures r[i] != [] {
      assert r[i] == if i < k then ss[i] else if i == k then b else ss[i - 1];
    }
    forall i | 0 <= i < k ensures KeyBefore(ss[i], b) {
      assert i < k - 1 ==> KeyBefore(ss[i], ss[k - 1]);
    }
    forall i, j | 0 <= i < j < |r| ensures KeyBefore(r[i], r[j]) {
      assert r[i] == if i < k then ss[i] else if i == k then b else ss[i - 1];
      assert r[j] == if j < k then ss[j] else if j == k then b else ss[j - 1];
    }
  }

  lemma InsertFlatten(ss: seq<seq<nat>>, b: seq<nat>, k: nat)
    requires k <= |ss|
    ensures multiset(ss[..k] + [b] + ss[k..]) == multiset(ss) + multiset{b}
    ensures multiset(Flatten(ss[..k] + [b] + ss[k..])) == multiset(Flatten(ss)) + multiset(b)
  {
    hide Flatten;
    FlattenAppend(ss[..k], ss[k..]);
    FlattenAppend(ss[..k], [b]);
    FlattenAppend(ss[..k] + [b], ss[k..]);
    FlattenOne(b);
    assert ss == ss[..k] + ss[k..];
  }

  method SortBuckets(ss: seq<seq<nat>>) returns (r: seq<seq<nat>>)
    requires NonEmpty(ss)
    ensures NonEmpty(r) && Ordered(r) && |r| == |ss|
    ensures multiset(r) == multiset(ss) && multiset(Flatten(r)) == multiset(Flatten(ss))
  {
    hide Ordered, Flatten;
    r := [];
    FlattenNone();
    OrderedNone();
    for i := 0 to |ss|
      invariant NonEmpty(r) && Ordered(r) && |r| == i
      invariant multiset(r) == multiset(ss[..i]) && multiset(Flatten(r)) == multiset(Flatten(ss[..i]))
    {
      r := InsertBucket(r, ss[i]);
      assert ss[..i + 1] == ss[..i] + [ss[i]];
      FlattenAppend(ss[..i], [ss[i]]);
      FlattenOne(ss[i]);
    }
    assert ss[..|ss|] == ss;
  }

  lemma OrderedNone()
    ensures Ordered([])
  {
  }

  /** Sorting keeps the buckets a partition. */
  lemma CoveringSorted(n: nat, ss: seq<seq<nat>>, r: seq<seq<nat>>, bucketSize: nat)
    requires Covering(n, [], ss, bucketSize) && NonEmpty(r)
    requires multiset(r) == multiset(ss) && multiset(Flatten(r)) == multiset(Flatten(ss))
    ensures Covering(n, [], r, bucketSize)
  {
    hide Flatten, Positions, Ascending;
    forall i | 0 <= i < |r| ensures Ascending(r[i]) && |r[i]| <= bucketSize {
      assert r[i] in multiset(r);
      assert r[i] in ss;
    }
  }

  /** The buckets of n leaves: those the labels give, smallest first. */
  ghost predicate Bucketing(buckets: seq<seq<nat>>, n: nat, bucketSize: nat, cluster: Labeller)
    requires bucketSize >= 2
  {
    && Covering(n, [], buckets, bucketSize) && Ordered(buckets)
    && multiset(buckets) == multiset(Cuts(cluster, Positions(n), bucketSize))
  }

  /** `_split_psi_buckets` on positions: the positions of n leaves in buckets that fit, fewer
      than leaves, smallest bucket first. */
  method SplitBuckets(n: nat, bucketSize: nat, cluster: Labeller) returns (buckets: seq<seq<nat>>)
    requires bucketSize >= 2
    ensures n <= bucketSize ==> buckets == [Positions(n)]
    ensures n > bucketSize ==> Covering(n, [], buckets, bucketSize) && |buckets| < n && Ordered(buckets)
    ensures n > bucketSize ==> Bucketing(buckets, n, bucketSize, cluster)
  {
    if n <= bucketSize {
      return [Positions(n)];
    }
    hide Flatten, Positions, Ascending, Ordered, Cuts;
    var cut := CutBuckets(n, bucketSize, cluster);
    buckets := SortBuckets(cut);
    CoveringSorted(n, cut, buckets, bucketSize);
  }

  // ------------------------------------------------- the buckets are determined

  /** Buckets that start alike are the same one. */
  ghost predicate Apart(ss: seq<seq<nat>>)
    requires NonEmpty(ss)
  {
    forall i, j :: 0 <= i < |ss| && 0 <= j < |ss| && ss[i][0] == ss[j][0] ==> ss[i] == ss[j]
  }

  lemma {:induction false} SortedOnce(a: seq<seq<nat>>, b: seq<seq<nat>>)
    requires NonEmpty(a) && NonEmpty(b) && Ordered(a) && Ordered(b) && multiset(a) == multiset(b) && Apart(a)
    ensures a == b
    decreases |a|
  {
    hide Ordered, Apart, KeyBefore;
    assert |multiset(a)| == |multiset(b)|;
    if a != [] {
      SameFirst(a, b);
      TailMembers(a);
      TailMembers(b);
      OrderedRest(a);
      OrderedRest(b);
      SortedOnce(a[1..], b[1..]);
      assert a == [a[0]] + a[1..] && b == [b[0]] + b[1..];
    }
  }

  lemma TailMembers(a: seq<seq<nat>>)
    requires a != []
    ensures multiset(a[1..]) == multiset(a) - multiset{a[0]}
  {
    assert a == [a[0]] + a[1..];
  }

  lemma SameFirst(a: seq<seq<nat>>, b: seq<seq<nat>>)
    requires NonEmpty(a) && NonEmpty(b) && Ordered(a) && Ordered(b) && multiset(a) == multiset(b) && Apart(a) && a != [] && b != []
    ensures a[0] == b[0]
  {
    assert a[0] in multiset(a) && b[0] in multiset(b);
    assert a[0] in multiset(b) && b[0] in multiset(a);
    var i :| 0 <= i < |a| && a[i] == b[0];
    var j :| 0 <= j < |b| && b[j] == a[0];
    assert (i == 0 || KeyBefore(a[0], a[i])) && (j == 0 || KeyBefore(b[0], b[j]));
  }

  lemma OrderedRest(a: seq<seq<nat>>)
    requires NonEmpty(a) && Ordered(a) && a != []
    ensures NonEmpty(a[1..]) && Ordered(a[1..]) && (Apart(a) ==> Apart(a[1..]))
  {
    var rest := a[1..];
    forall i, j | 0 <= i < j < |rest| ensures KeyBefore(rest[i], rest[j]) { assert KeyBefore(a[i + 1], a[j + 1]); }
    if Apart(a) {
      forall i, j | 0 <= i < |rest| && 0 <= j < |rest| && rest[i][0] == rest[j][0] ensures rest[i] == rest[j] {
        assert a[i + 1] == a[j + 1];
      }
    }
  }

  lemma {:induction false} DisjointFirst(ss: seq<seq<nat>>, i: nat, j: nat)
    requires NonEmpty(ss) && i < j < |ss| && ss[i][0] == ss[j][0]
    ensures multiset(Flatten(ss))[ss[i][0]] >= 2
    decreases |ss|
  {
    var x := ss[i][0];
    if i > 0 {
      DisjointFirst(ss[1..], i - 1, j - 1);
      assert Flatten(ss) == ss[0] + Flatten(ss[1..]);
    } else {
      assert ss[j] == ss[1..][j - 1] && x in ss[j];
      MemberOfFlatten(ss[1..], j - 1, x);
      assert x in multiset(ss[0]) && x in multiset(Flatten(ss[1..]));
    }
  }

  /** The number of leaves, the bucket size and the labels leave only one list of buckets. */
  lemma BucketsDetermined(a: seq<seq<nat>>, b: seq<seq<nat>>, n: nat, bucketSize: nat, cluster: Labeller)
    requires bucketSize >= 2 && Bucketing(a, n, bucketSize, cluster) && Bucketing(b, n, bucketSize, cluster)
    ensures a == b
  {
    hide Cuts, Flatten, Ordered, Ascending, Positions, KeyBefore;
    CoveredOnce(n, a, bucketSize);
    forall i, j | 0 <= i < |a| && 0 <= j < |a| && a[i][0] == a[j][0] ensures a[i] == a[j] {
      if i < j {
        DisjointFirst(a, i, j);
      } else if j < i {
        DisjointFirst(a, j, i);
      }
    }
    SortedOnce(a, b);
  }

  /** What a covering means for one position. */
  lemma CoveredOnce(n: nat, buckets: seq<seq<nat>>, bucketSize: nat)
    requires Covering(n, [], buckets, bucketSize)
    ensures |Flatten(buckets)| == n && forall x: nat :: multiset(Flatten(buckets))[x] == if x < n then 1 else 0
  {
    FlattenNone();
    assert multiset(Flatten(buckets)) == multiset(Positions(n));
    assert |multiset(Positions(n))| == n && |multiset(Flatten(buckets))| == |Flatten(buckets)|;
    PositionsOnce(n);
  }

  lemma {:induction false} PositionsOnce(n: nat)
    ensures forall x: nat :: multiset(Positions(n))[x] == if x < n then 1 else 0
    decreases n
  {
    if n > 0 {
      PositionsOnce(n - 1);
      assert Positions(n) == Positions(n - 1) + [n - 1];
    } else {
      assert Positions(n) == [];
    }
  }
}
