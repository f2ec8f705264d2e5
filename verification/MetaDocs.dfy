/** Documents with metadata, and their flattened form: key, then value, then documents. */
module MetaDocs {
  import opened TextPatterns

  type DocId = string

  datatype Scalar = Str(s: string) | Num(n: int) | Flag(b: bool) | Null

  /** A filter value as it arrives. */
  datatype Value = NoValue | One(v: Scalar) | Several(vs: seq<Scalar>)

  /** `fields` maps a metadata key to its values, a single value being a list of one. */
  datatype Doc = Doc(kb: string, fields: map<string, seq<Scalar>>)

  type Metas = map<string, map<string, seq<DocId>>>

  /** What `str` and `str.lower` do: `show` for values that are not strings. */
  datatype Texts = Texts(show: Value -> string, fold: Fold)

  /** `str(v)`. */
  function Render(x: Texts, v: Scalar): string {
    if v.Str? then v.s else x.show(Value.One(v))
  }

  function ValuesOf(d: Doc, key: string): seq<Scalar> {
    if key in d.fields then d.fields[key] else []
  }

  /** Some value other than null renders as v. */
  ghost predicate Among(x: Texts, values: seq<Scalar>, v: string) {
    exists i :: 0 <= i < |values| && values[i] != Null && Render(x, values[i]) == v
  }

  /** The document has such a value for the key. */
  ghost predicate HasValue(x: Texts, d: Doc, key: string, v: string) {
    Among(x, ValuesOf(d, key), v)
  }

  ghost predicate Listed(metas: Metas, key: string, v: string, id: DocId) {
    key in metas && v in metas[key] && id in metas[key][v]
  }

  /** The flattened form lists a document under exactly its values. */
  ghost predicate Flat(x: Texts, docs: map<DocId, Doc>, metas: Metas) {
    forall key, v, id :: Listed(metas, key, v, id) <==> id in docs && HasValue(x, docs[id], key, v)
  }

  /** `meta[k][sv].append(doc_id)` with both levels created when missing. */
  function Add(metas: Metas, key: string, v: string, id: DocId): Metas {
    var buckets := if key in metas then metas[key] else map[];
    var ids := if v in buckets then buckets[v] else [];
    metas[key := buckets[v := ids + [id]]]
  }

  lemma AddLists(metas: Metas, key: string, v: string, id: DocId)
    ensures forall k, w, d :: Listed(Add(metas, key, v, id), k, w, d) <==> Listed(metas, k, w, d) || (k == key && w == v && d == id)
  {
  }

  lemma AmongNext(x: Texts, values: seq<Scalar>, i: nat)
    requires i < |values|
    ensures forall w :: Among(x, values[..i + 1], w) <==>
      Among(x, values[..i], w) || (values[i] != Null && Render(x, values[i]) == w)
  {
    forall w | Among(x, values[..i], w) ensures Among(x, values[..i + 1], w) {
      var j :| 0 <= j < i && values[..i][j] != Null && Render(x, values[..i][j]) == w;
      assert values[..i + 1][j] == values[..i][j];
    }
    assert values[..i + 1][i] == values[i];
    forall w | Among(x, values[..i + 1], w) && !(values[i] != Null && Render(x, values[i]) == w)
      ensures Among(x, values[..i], w)
    {
      var j :| 0 <= j < i + 1 && values[..i + 1][j] != Null && Render(x, values[..i + 1][j]) == w;
      assert values[..i][j] == values[j];
    }
  }

  /** One document's values for one key. */
  method AddValues(x: Texts, before: Metas, id: DocId, key: string, values: seq<Scalar>) returns (metas: Metas)
    ensures forall k, w, d :: Listed(metas, k, w, d) <==>
      Listed(before, k, w, d) || (k == key && d == id && Among(x, values, w))
  {
    metas := if key in before then before else before[key := map[]];
    for i := 0 to |values|
      invariant forall k, w, d :: Listed(metas, k, w, d) <==>
        Listed(before, k, w, d) || (k == key && d == id && Among(x, values[..i], w))
    {
      AmongNext(x, values, i);
      if values[i] != Null {
        AddLists(metas, key, Render(x, values[i]), id);
        metas := Add(metas, key, Render(x, values[i]), id);
      }
    }
    assert values[..|values|] == values;
  }

  /** One document. */
  method AddDoc(x: Texts, before: Metas, id: DocId, doc: Doc) returns (metas: Metas)
    ensures forall k, w, d :: Listed(metas, k, w, d) <==> Listed(before, k, w, d) || (d == id && HasValue(x, doc, k, w))
  {
    metas := before;
    var todo := doc.fields.Keys;
    while todo != {}
      invariant todo <= doc.fields.Keys
      invariant forall k, w, d :: Listed(metas, k, w, d) <==>
        Listed(before, k, w, d) || (d == id && k !in todo && HasValue(x, doc, k, w))
      decreases |todo|
    {
      var key :| key in todo;
      metas := AddValues(x, metas, id, key, doc.fields[key]);
      todo := todo - {key};
    }
  }

  /** `get_flatted_meta_by_kbs` over the documents found. */
  method Flatten(x: Texts, docs: map<DocId, Doc>) returns (metas: Metas)
    ensures Flat(x, docs, metas)
  {
    metas := map[];
    var todo := docs.Keys;
    while todo != {}
      invariant todo <= docs.Keys
      invariant forall k, w, d :: Listed(metas, k, w, d) <==> d in docs && d !in todo && HasValue(x, docs[d], k, w)
      decreases |todo|
    {
      var id :| id in todo;
      metas := AddDoc(x, metas, id, docs[id]);
      todo := todo - {id};
    }
  }
}
