/** The fragment of Elasticsearch queries the push-down uses, and what it means. */
module EsQuery {
  import opened TextPatterns
  import opened MetaDocs

  datatype Cmp = Gt | Lt | Gte | Lte

  /** `meta_fields.<key>.keyword` or `meta_fields.<key>`. */
  datatype Field = Keyword(key: string) | Plain(key: string)

  /** A `bool` with a `should` list always asks for at least one match. */
  datatype Clause =
    | KbTerms(kbs: seq<string>)
    | Exists(key: string)
    | Term(field: Field, value: Scalar, caseInsensitive: bool)
    | Terms(field: Field, values: seq<Scalar>)
    | Range(key: string, cmp: Cmp, bound: Scalar)
    | Prefix(key: string, text: string)
    | Wildcard(key: string, pattern: string)
    | Bool(must: seq<Clause>, mustNot: seq<Clause>, should: seq<Clause>, filter: seq<Clause>)

  /** How texts fold, and the engine's comparison of values with a bound. */
  datatype Engine = Engine(fold: Fold, inRange: (Cmp, Scalar, Scalar) -> bool)

  predicate SomeValue(d: Doc, key: string) {
    exists i :: 0 <= i < |ValuesOf(d, key)| && ValuesOf(d, key)[i] != Null
  }

  ghost predicate TermMatches(e: Engine, field: Field, value: Scalar, caseInsensitive: bool, v: Scalar) {
    if field.Keyword? then
      value.Str? && v.Str? && if caseInsensitive then Folded(v.s, e.fold) == Folded(value.s, e.fold) else v == value
    else v == value && v != Null
  }

  /** Whether the query selects the document. A term on a list of values needs one of them. */
  ghost predicate Meaning(e: Engine, c: Clause, d: Doc) {
    match c
    case KbTerms(kbs) => d.kb in kbs
    case Exists(key) => SomeValue(d, key)
    case Term(field, value, ci) =>
      exists i :: 0 <= i < |ValuesOf(d, field.key)| && TermMatches(e, field, value, ci, ValuesOf(d, field.key)[i])
    case Terms(field, values) =>
      exists i :: 0 <= i < |ValuesOf(d, field.key)| && ValuesOf(d, field.key)[i] != Null && ValuesOf(d, field.key)[i] in values
    case Range(key, cmp, bound) =>
      exists i :: 0 <= i < |ValuesOf(d, key)| && e.inRange(cmp, ValuesOf(d, key)[i], bound)
    case Prefix(key, text) =>
      exists i :: 0 <= i < |ValuesOf(d, key)| && ValuesOf(d, key)[i].Str?
        && Folded(text, e.fold) <= Folded(ValuesOf(d, key)[i].s, e.fold)
    case Wildcard(key, pattern) =>
      exists i :: 0 <= i < |ValuesOf(d, key)| && ValuesOf(d, key)[i].Str? && Like(ES, pattern, ValuesOf(d, key)[i].s, e.fold)
    case Bool(must, mustNot, should, filter) =>
      && (forall i :: 0 <= i < |must| ==> Meaning(e, must[i], d))
      && (forall i :: 0 <= i < |mustNot| ==> !Meaning(e, mustNot[i], d))
      && (should != [] ==> exists i :: 0 <= i < |should| && Meaning(e, should[i], d))
      && (forall i :: 0 <= i < |filter| ==> Meaning(e, filter[i], d))
  }

  ghost predicate All(e: Engine, cs: seq<Clause>, d: Doc) {
    forall i :: 0 <= i < |cs| ==> Meaning(e, cs[i], d)
  }

  ghost predicate Some(e: Engine, cs: seq<Clause>, d: Doc) {
    exists i :: 0 <= i < |cs| && Meaning(e, cs[i], d)
  }
}
