/** Layer boundaries of a chunk list: half-open ranges, oldest layer first. */
module LayerRanges {

  type Range = (nat, nat)

  function Size(r: Range): int {
    r.1 as int - r.0
  }

  /** The first layer holds the n original chunks; each further layer starts where the one
      before ends and is not empty; the last one ends at the end of the list. */
  ghost predicate Tiles(ranges: seq<Range>, n: nat, total: nat) {
    && ranges != [] && ranges[0] == (0, n) && ranges[|ranges| - 1].1 == total
    && forall k :: 0 < k < |ranges| ==> Next(ranges[k - 1], ranges[k])
  }

  ghost predicate Next(a: Range, b: Range) {
    a.1 == b.0 < b.1
  }

  lemma TileMore(ranges: seq<Range>, n: nat, total: nat, total': nat)
    requires Tiles(ranges, n, total) && total < total'
    ensures Tiles(ranges + [(total, total')], n, total')
  {
    var more := ranges + [(total, total')];
    forall k | 0 < k < |more| ensures Next(more[k - 1], more[k]) {
      if k < |ranges| {
        assert Next(ranges[k - 1], ranges[k]);
      }
    }
  }

  /** Every position of the list lies in exactly one layer. */
  lemma {:induction false} TiledOnce(ranges: seq<Range>, n: nat, total: nat, p: nat) returns (k: nat)
    requires Tiles(ranges, n, total) && p < total
    ensures k < |ranges| && ranges[k].0 <= p < ranges[k].1
    ensures forall j :: 0 <= j < |ranges| && ranges[j].0 <= p < ranges[j].1 ==> j == k
    decreases |ranges|
  {
    var last := |ranges| - 1;
    if last == 0 {
      k := 0;
    } else {
      assert Next(ranges[last - 1], ranges[last]);
      var front := ranges[..last];
      assert Tiles(front, n, ranges[last].0) by {
        forall j | 0 < j < last ensures Next(front[j - 1], front[j]) { assert Next(ranges[j - 1], ranges[j]); }
      }
      if p >= ranges[last].0 {
        k := last;
        forall j | 0 <= j < last ensures ranges[j].1 <= p { EndsBefore(front, n, ranges[last].0, j); }
      } else {
        k := TiledOnce(front, n, ranges[last].0, p);
        forall j | 0 <= j < |ranges| && ranges[j].0 <= p < ranges[j].1 ensures j == k {
          if j < last {
            assert front[j] == ranges[j];
          }
        }
      }
    }
  }

  lemma {:induction false} EndsBefore(ranges: seq<Range>, n: nat, total: nat, j: nat)
    requires Tiles(ranges, n, total) && j < |ranges|
    ensures ranges[j].1 <= total
    decreases |ranges| - j
  {
    if j < |ranges| - 1 {
      assert Next(ranges[j], ranges[j + 1]);
      EndsBefore(ranges, n, total, j + 1);
    }
  }
}
