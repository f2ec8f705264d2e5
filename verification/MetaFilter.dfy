/** `meta_filter`: the in-memory evaluator, for the operators on text. */
module MetaFilter {
  import opened TextPatterns
  import opened MetaDocs

  datatype Op = Contains | NotContains | In | NotIn | StartsWith | EndsWith | Empty | NotEmpty

  datatype Filter = Filter(op: Op, key: string, value: Value)

  function LowerScalar(x: Texts, v: Scalar): Scalar {
    if v.Str? then Str(Folded(v.s, x.fold)) else v
  }

  /** `normalize_string_values`. */
  function Lower(x: Texts, v: Value): Value {
    match v
    case NoValue => NoValue
    case One(s) => Value.One(LowerScalar(x, s))
    case Several(vs) => Several(seq(|vs|, i requires 0 <= i < |vs| => LowerScalar(x, vs[i])))
  }

  /** `str(value)`. */
  function StrOf(x: Texts, v: Value): string {
    if v.One? then Render(x, v.v) else x.show(v)
  }

  /** The test of one bucket, on the already normalised input and value. A test that raises in
      the original, such as searching for a number in a string, does not match. */
  predicate Matched(x: Texts, op: Op, input: string, value: Value) {
    match op
    case Contains => value.One? && value.v.Str? && Has(input, value.v.s)
    case NotContains => value.One? && value.v.Str? && !Has(input, value.v.s)
    case In =>
      || (value.One? && value.v.Str? && Has(value.v.s, input))
      || (value.Several? && Str(input) in value.vs)
    case NotIn =>
      || (value.One? && value.v.Str? && !Has(value.v.s, input))
      || (value.Several? && Str(input) !in value.vs)
    case StartsWith => Folded(StrOf(x, value), x.fold) <= Folded(input, x.fold)
    case EndsWith => Ends(Folded(input, x.fold), Folded(StrOf(x, value), x.fold))
    case Empty => input == ""
    case NotEmpty => input != ""
  }

  /** The test on a bucket as it is stored. */
  predicate Test(x: Texts, f: Filter, stored: string) {
    Matched(x, f.op, Folded(stored, x.fold), Lower(x, f.value))
  }

  lemma FoldedTwice(s: string, fold: Fold)
    requires Idempotent(fold)
    ensures Folded(Folded(s, fold), fold) == Folded(s, fold)
  {
  }

  /** The value is normalised again for every bucket; once is enough. */
  lemma LowerTwice(x: Texts, v: Value)
    requires Idempotent(x.fold)
    ensures Lower(x, Lower(x, v)) == Lower(x, v)
  {
    match v
    case NoValue =>
    case One(s) => if s.Str? { FoldedTwice(s.s, x.fold); }
    case Several(vs) =>
      forall i | 0 <= i < |vs| ensures LowerScalar(x, LowerScalar(x, vs[i])) == LowerScalar(x, vs[i]) {
        if vs[i].Str? { FoldedTwice(vs[i].s, x.fold); }
      }
  }

  /** The buckets, read as documents: some value of the document passes the test. */
  ghost predicate Holds(x: Texts, f: Filter, d: Doc) {
    exists v :: HasValue(x, d, f.key, v) && Test(x, f, v)
  }

  ghost predicate HoldsIn(x: Texts, f: Filter, metas: Metas, id: DocId) {
    exists v :: Listed(metas, f.key, v, id) && Test(x, f, v)
  }

  /** `filter_out`: the documents of every bucket that passes. */
  method FilterOut(x: Texts, buckets: map<string, seq<DocId>>, f: Filter) returns (ids: seq<DocId>)
    requires Idempotent(x.fold)
    ensures forall id :: id in ids <==> exists v :: v in buckets && id in buckets[v] && Test(x, f, v)
  {
    ids := [];
    var value := f.value;
    var todo := buckets.Keys;
    while todo != {}
      invariant todo <= buckets.Keys && Lower(x, value) == Lower(x, f.value)
      invariant forall id :: id in ids <==> exists v :: v in buckets && v !in todo && id in buckets[v] && Test(x, f, v)
      decreases |todo|
    {
      var stored :| stored in todo;
      var input := Folded(stored, x.fold);
      LowerTwice(x, value);
      value := Lower(x, value);
      if Matched(x, f.op, input, value) {
        ids := ids + buckets[stored];
      }
      todo := todo - {stored};
    }
  }

  /** Every filter, or some filter. */
  ghost predicate Combined(x: Texts, filters: seq<Filter>, conjunctive: bool, metas: Metas, id: DocId) {
    if conjunctive then forall i :: 0 <= i < |filters| ==> HoldsIn(x, filters[i], metas, id)
    else exists i :: 0 <= i < |filters| && HoldsIn(x, filters[i], metas, id)
  }

  /** What the whole list of filters selects; no filter selects nothing. */
  ghost predicate Selects(x: Texts, filters: seq<Filter>, conjunctive: bool, metas: Metas, id: DocId) {
    filters != [] && Combined(x, filters, conjunctive, metas, id)
  }

  method IdsOf(x: Texts, metas: Metas, f: Filter) returns (ids: set<DocId>)
    requires Idempotent(x.fold)
    ensures forall id :: id in ids <==> HoldsIn(x, f, metas, id)
  {
    var list := [];
    if f.key in metas {
      list := FilterOut(x, metas[f.key], f);
    }
    ids := set id | id in list;
    forall id ensures id in ids <==> HoldsIn(x, f, metas, id) {
      if id in ids {
        var v :| v in metas[f.key] && id in metas[f.key][v] && Test(x, f, v);
        assert Listed(metas, f.key, v, id);
      }
      if HoldsIn(x, f, metas, id) {
        var v :| Listed(metas, f.key, v, id) && Test(x, f, v);
        assert v in metas[f.key] && id in metas[f.key][v];
      }
    }
  }

  /** `meta_filter`. Every logic but "and" is treated as "or"; no filter selects nothing. */
  method Select(x: Texts, metas: Metas, filters: seq<Filter>, logic: string) returns (ids: set<DocId>)
    requires Idempotent(x.fold)
    ensures forall id :: id in ids <==> Selects(x, filters, logic == "and", metas, id)
  {
    hide HoldsIn;
    ids := {};
    for i := 0 to |filters|
      invariant i > 0 ==> forall id :: id in ids <==> Combined(x, filters[..i], logic == "and", metas, id)
      invariant i == 0 ==> ids == {}
    {
      var found := IdsOf(x, metas, filters[i]);
      ghost var before := ids;
      CombinedMore(x, filters[..i], filters[i], logic == "and", metas);
      assert filters[..i + 1] == filters[..i] + [filters[i]];
      if i == 0 {
        ids := found;
      } else if logic == "and" {
        ids := ids * found;
        if ids == {} {
          forall id ensures !Combined(x, filters, true, metas, id) {
            assert id !in before * found;
          }
          return;
        }
      } else {
        ids := ids + found;
      }
    }
    assert filters[..|filters|] == filters;
  }

  /** The code's combination of what is selected so far with one more filter. */
  ghost predicate JoinedWith(x: Texts, fs: seq<Filter>, f: Filter, conjunctive: bool, metas: Metas, id: DocId) {
    if fs == [] then HoldsIn(x, f, metas, id)
    else if conjunctive then Combined(x, fs, conjunctive, metas, id) && HoldsIn(x, f, metas, id)
    else Combined(x, fs, conjunctive, metas, id) || HoldsIn(x, f, metas, id)
  }

  lemma CombinedMore(x: Texts, fs: seq<Filter>, f: Filter, conjunctive: bool, metas: Metas)
    ensures forall id :: Combined(x, fs + [f], conjunctive, metas, id) <==> JoinedWith(x, fs, f, conjunctive, metas, id)
  {
    hide HoldsIn;
    var all := fs + [f];
    assert all[|fs|] == f;
    forall id ensures Combined(x, all, conjunctive, metas, id) <==> JoinedWith(x, fs, f, conjunctive, metas, id) {
      assert forall i :: 0 <= i < |fs| ==> all[i] == fs[i];
    }
  }

  /** On flattened documents a filter selects the documents with a passing value. */
  lemma BucketsAreDocs(x: Texts, docs: map<DocId, Doc>, metas: Metas, f: Filter, id: DocId)
    requires Flat(x, docs, metas)
    ensures HoldsIn(x, f, metas, id) <==> id in docs && Holds(x, f, docs[id])
  {
    if HoldsIn(x, f, metas, id) {
      var v :| Listed(metas, f.key, v, id) && Test(x, f, v);
    }
    if id in docs && Holds(x, f, docs[id]) {
      var v :| HasValue(x, docs[id], f.key, v) && Test(x, f, v);
      assert Listed(metas, f.key, v, id);
    }
  }
}
