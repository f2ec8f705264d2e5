/** `metadata_es_filter`: filters translated to an Elasticsearch query. */
module EsFilter {
  import opened TextPatterns
  import opened MetaDocs
  import opened EsQuery
  import M = MetaFilter

  datatype Op = OnText(op: M.Op) | Equal | NotEqual | Compare(cmp: Cmp) | Unknown

  /** A filter as it arrives; the empty key stands for a missing one. */
  datatype Filter = Filter(op: Op, key: string, value: Value)

  /** What `ast.literal_eval` makes of a text. */
  datatype Literal = Atom(v: Scalar) | Items(vs: seq<Scalar>) | Other | NotALiteral

  /** The Python library as far as the coercions use it. */
  datatype Python = Python(show: Value -> string, fold: Fold, literal: string -> Literal, date: string -> bool)

  datatype Result<+T> = Ok(value: T) | Unsupported

  // ------------------------------------------------- coercions

  predicate Space(c: char) {
    c in " \t\n\r"
  }

  function StripLeft(s: string): string {
    if s != "" && Space(s[0]) then StripLeft(s[1..]) else s
  }

  function StripRight(s: string): string {
    if s != "" && Space(s[|s| - 1]) then StripRight(s[..|s| - 1]) else s
  }

  /** `s.strip()`. */
  function Strip(s: string): string {
    StripRight(StripLeft(s))
  }

  function StrOf(p: Python, v: Scalar): string {
    if v.Str? then v.s else p.show(Value.One(v))
  }

  /** `_coerce_scalar`. */
  function CoerceScalar(p: Python, value: Value): Result<Scalar> {
    if !value.One? then Unsupported else
    var s := Strip(StrOf(p, value.v));
    if p.date(s) then Ok(Str(s)) else
    match p.literal(s)
    case Atom(Str(t)) => Ok(Str(Folded(t, p.fold)))
    case Atom(Num(n)) => Ok(Num(n))
    case Atom(Flag(b)) => Ok(Flag(b))
    case _ => Ok(Str(Folded(s, p.fold)))
  }

  /** `_coerce_range_value`; only a missing value is refused. */
  function CoerceRange(p: Python, value: Value): Result<Scalar> {
    if value.NoValue? then Unsupported else
    var s := Strip(if value.One? then StrOf(p, value.v) else p.show(value));
    if p.date(s) then Ok(Str(s)) else
    match p.literal(s)
    case Atom(Num(n)) => Ok(Num(n))
    case Atom(Flag(b)) => Ok(Flag(b))
    case _ => Ok(Str(s))
  }

  /** `_coerce_string`. */
  function CoerceString(p: Python, value: Value): Result<string> {
    if !value.One? then Unsupported else
    var s := StrOf(p, value.v);
    if s == "" then Unsupported else Ok(s)
  }

  /** `value.split(",")`, stripped, without the empty parts; `part` is the part being read. */
  function SplitParts(s: string, part: string): seq<string> {
    if s == "" then Kept(part)
    else if s[0] == ',' then Kept(part) + SplitParts(s[1..], "")
    else SplitParts(s[1..], part + [s[0]])
  }

  function Kept(part: string): seq<string> {
    if Strip(part) == "" then [] else [Strip(part)]
  }

  function Strings(parts: seq<string>): (r: seq<Scalar>)
    ensures |r| == |parts| && forall i :: 0 <= i < |r| ==> r[i] == Str(parts[i])
  {
    seq(|parts|, i requires 0 <= i < |parts| => Str(parts[i]))
  }

  function Normal(p: Python, v: Scalar): Scalar {
    if v.Str? then Str(Strip(Folded(v.s, p.fold))) else v
  }

  function Normalised(p: Python, vs: seq<Scalar>): (r: seq<Scalar>)
    ensures |r| == |vs| && forall i :: 0 <= i < |r| ==> r[i] == Normal(p, vs[i])
  {
    seq(|vs|, i requires 0 <= i < |vs| => Normal(p, vs[i]))
  }

  /** The members before normalising. */
  function Members(p: Python, value: Value): seq<Scalar> {
    match value
    case NoValue => []
    case Several(vs) => vs
    case One(Str(s)) => (match p.literal(s) case Items(vs) => vs case _ => Strings(SplitParts(s, "")))
    case One(v) => [v]
  }

  /** `_csv_or_list`. */
  function CsvOrList(p: Python, value: Value): Result<seq<Scalar>> {
    if Members(p, value) == [] then Unsupported else Ok(Normalised(p, Members(p, value)))
  }

  // ------------------------------------------------- translation

  datatype Translated = Translated(must: seq<Clause>, mustNot: seq<Clause>)

  function Group(must: seq<Clause>, mustNot: seq<Clause>): Clause {
    Bool(must, mustNot, [], [])
  }

  function AnyOf(should: seq<Clause>): Clause {
    Bool([], [], should, [])
  }

  /** `_term_or_match`. */
  function TermFor(key: string, v: Scalar): Clause {
    if v.Str? then Term(Keyword(key), v, true) else Term(Plain(key), v, false)
  }

  function TermsFor(key: string, vs: seq<Scalar>): (cs: seq<Clause>)
    ensures |cs| == |vs| && forall i :: 0 <= i < |cs| ==> cs[i] == TermFor(key, vs[i])
  {
    seq(|vs|, i requires 0 <= i < |vs| => TermFor(key, vs[i]))
  }

  /** `_terms_string_or_numeric`. */
  function MembersClause(key: string, vs: seq<Scalar>): Clause {
    if forall i :: 0 <= i < |vs| ==> !vs[i].Str? then Terms(Plain(key), vs) else AnyOf(TermsFor(key, vs))
  }

  function ContainsClause(key: string, text: string): Clause {
    Wildcard(key, "*" + Escape(ES, text) + "*")
  }

  /** `MetaFilterTranslator.translate`. */
  function Translate(p: Python, f: Filter): Result<Translated> {
    if f.key == "" then Unsupported else
    match f.op
    case Unknown => Unsupported
    case Equal =>
      var v := CoerceScalar(p, f.value);
      if v.Unsupported? then Unsupported else Ok(Translated([TermFor(f.key, v.value)], []))
    case NotEqual =>
      var v := CoerceScalar(p, f.value);
      if v.Unsupported? then Unsupported else Ok(Translated([Exists(f.key)], [TermFor(f.key, v.value)]))
    case Compare(cmp) =>
      var v := CoerceRange(p, f.value);
      if v.Unsupported? then Unsupported else Ok(Translated([Exists(f.key), Range(f.key, cmp, v.value)], []))
    case OnText(op) => TranslateText(p, op, f.key, f.value)
  }

  function TranslateText(p: Python, op: M.Op, key: string, value: Value): Result<Translated> {
    match op
    case Empty =>
      Ok(Translated([AnyOf([Group([], [Exists(key)]), Term(Keyword(key), Str(""), false)])], []))
    case NotEmpty => Ok(Translated([Exists(key)], [Term(Keyword(key), Str(""), false)]))
    case In =>
      var ms := CsvOrList(p, value);
      if ms.Unsupported? then Unsupported else Ok(Translated([MembersClause(key, ms.value)], []))
    case NotIn =>
      var ms := CsvOrList(p, value);
      if ms.Unsupported? then Unsupported else Ok(Translated([Exists(key)], [MembersClause(key, ms.value)]))
    case Contains =>
      var t := CoerceString(p, value);
      if t.Unsupported? then Unsupported else Ok(Translated([ContainsClause(key, t.value)], []))
    case NotContains =>
      var t := CoerceString(p, value);
      if t.Unsupported? then Unsupported else Ok(Translated([Exists(key)], [ContainsClause(key, t.value)]))
    case StartsWith =>
      var t := CoerceString(p, value);
      if t.Unsupported? then Unsupported else Ok(Translated([Prefix(key, t.value)], []))
    case EndsWith =>
      var t := CoerceString(p, value);
      if t.Unsupported? then Unsupported else Ok(Translated([Wildcard(key, "*" + Escape(ES, t.value))], []))
  }

  /** `TranslatedFilter.to_clauses`. */
  function ToClauses(t: Translated): seq<Clause> {
    if t.must == [] && t.mustNot == [] then []
    else if t.mustNot == [] then (if |t.must| == 1 then t.must else [Group(t.must, [])])
    else [Group(t.must, t.mustNot)]
  }

  function FlatClauses(ts: seq<Translated>): seq<Clause> {
    if ts == [] then [] else ToClauses(ts[0]) + FlatClauses(ts[1..])
  }

  datatype Logic = And | Or

  /** `MetaFilterPushdownPlan.to_query`. */
  function ToQuery(ts: seq<Translated>, logic: Logic, kbs: seq<string>): Clause {
    if ts == [] then Bool([], [], [], [KbTerms(kbs)]) else
    var inner := if logic.Or? then AnyOf(FlatClauses(ts)) else Group(FlatClauses(ts), []);
    Bool([], [], [], [KbTerms(kbs), inner])
  }

  datatype Plan = Plan(logic: Logic, translated: seq<Translated>)

  /** `plan_pushdown`: a known logic and all filters, or nothing. */
  method PlanPushdown(p: Python, filters: seq<Filter>, logic: string) returns (r: Result<Plan>)
    ensures r.Ok? <==> logic in ["and", "or"] && forall i :: 0 <= i < |filters| ==> Translate(p, filters[i]).Ok?
    ensures r.Ok? ==> r.value.logic == if logic == "and" then And else Or
    ensures r.Ok? ==> |r.value.translated| == |filters|
    ensures r.Ok? ==> forall i :: 0 <= i < |filters| ==> Translate(p, filters[i]) == Ok(r.value.translated[i])
  {
    if logic !in ["and", "or"] {
      return Unsupported;
    }
    var ts := [];
    for i := 0 to |filters|
      invariant |ts| == i && forall j :: 0 <= j < i ==> Translate(p, filters[j]) == Ok(ts[j])
    {
      var t := Translate(p, filters[i]);
      if t.Unsupported? {
        return Unsupported;
      }
      ts := ts + [t.value];
    }
    return Ok(Plan(if logic == "and" then And else Or, ts));
  }

  // ------------------------------------------------- composition

  /** A filter on its own: all that must hold, nothing that must not. */
  ghost predicate Accepts(e: Engine, t: Translated, d: Doc) {
    All(e, t.must, d) && !Some(e, t.mustNot, d)
  }

  /** A filter that emits something collapses to exactly one clause with its own meaning. */
  lemma OneAtomicClause(e: Engine, t: Translated, d: Doc)
    requires t.must != [] || t.mustNot != []
    ensures |ToClauses(t)| == 1 && (Meaning(e, ToClauses(t)[0], d) <==> Accepts(e, t, d))
  {
    if t.mustNot == [] && |t.must| == 1 {
      assert ToClauses(t)[0] == t.must[0];
    }
  }

  /** So clauses and filters line up, for "and" as well as for "or". */
  lemma {:induction false} FlatLinesUp(e: Engine, ts: seq<Translated>, d: Doc)
    requires forall i :: 0 <= i < |ts| ==> ts[i].must != []
    ensures |FlatClauses(ts)| == |ts|
    ensures forall i :: 0 <= i < |ts| ==> (Meaning(e, FlatClauses(ts)[i], d) <==> Accepts(e, ts[i], d))
    decreases |ts|
  {
    if ts != [] {
      FlatLinesUp(e, ts[1..], d);
      OneAtomicClause(e, ts[0], d);
      hide Accepts, Meaning;
      forall i | 0 <= i < |ts| ensures Meaning(e, FlatClauses(ts)[i], d) <==> Accepts(e, ts[i], d) {
        if i > 0 { assert FlatClauses(ts)[i] == FlatClauses(ts[1..])[i - 1] && ts[i] == ts[1..][i - 1]; }
      }
    }
  }

  ghost predicate Combined(e: Engine, ts: seq<Translated>, logic: Logic, d: Doc) {
    if logic.And? then forall i :: 0 <= i < |ts| ==> Accepts(e, ts[i], d)
    else exists i :: 0 <= i < |ts| && Accepts(e, ts[i], d)
  }

  /** The query is the knowledge-base scope and the and/or of the filters' own meanings; with
      no filter it is the scope alone. */
  lemma QueryDenotes(e: Engine, p: Python, filters: seq<Filter>, ts: seq<Translated>, logic: Logic, kbs: seq<string>, d: Doc)
    requires |ts| == |filters| && forall i :: 0 <= i < |filters| ==> Translate(p, filters[i]) == Ok(ts[i])
    ensures Meaning(e, ToQuery(ts, logic, kbs), d) <==> d.kb in kbs && (ts == [] || Combined(e, ts, logic, d))
  {
    forall i | 0 <= i < |ts| ensures ts[i].must != [] { }
    FlatLinesUp(e, ts, d);
    ScopeAndInner(e, ts, logic, kbs, d);
    hide Accepts, Translate, Meaning;
  }

  lemma ScopeAndInner(e: Engine, ts: seq<Translated>, logic: Logic, kbs: seq<string>, d: Doc)
    requires |FlatClauses(ts)| == |ts|
    ensures Meaning(e, ToQuery(ts, logic, kbs), d)
      <==> d.kb in kbs && (ts == [] || if logic.And? then All(e, FlatClauses(ts), d) else Some(e, FlatClauses(ts), d))
  {
    var q := ToQuery(ts, logic, kbs);
    if ts == [] {
      assert Meaning(e, q, d) <==> Meaning(e, q.filter[0], d);
    } else {
      assert q.filter == [q.filter[0], q.filter[1]];
      assert Meaning(e, q, d) <==> Meaning(e, q.filter[0], d) && Meaning(e, q.filter[1], d);
    }
  }

  /** Were a range filter's two clauses put side by side under an "or", a document could pass
      by merely having the field. */
  lemma WrappingMatters(e: Engine, key: string, cmp: Cmp, bound: Scalar, d: Doc)
    requires SomeValue(d, key) && forall v :: !e.inRange(cmp, v, bound)
    ensures var t := Translated([Exists(key), Range(key, cmp, bound)], []);
      !Accepts(e, t, d) && Meaning(e, AnyOf(t.must), d) && !Meaning(e, AnyOf(ToClauses(t)), d)
  {
    var t := Translated([Exists(key), Range(key, cmp, bound)], []);
    assert Meaning(e, t.must[0], d) && !Meaning(e, t.must[1], d);
    OneAtomicClause(e, t, d);
  }

  // ------------------------------------------------- comparisons

  lemma AcceptsList(e: Engine, must: seq<Clause>, mustNot: seq<Clause>, d: Doc)
    requires 1 <= |must| <= 2 && |mustNot| <= 1
    ensures Accepts(e, Translated(must, mustNot), d) <==>
      && Meaning(e, must[0], d)
      && (|must| == 2 ==> Meaning(e, must[1], d))
      && (|mustNot| == 1 ==> !Meaning(e, mustNot[0], d))
  {
    hide Meaning;
  }

  /** The stored value equals the compared one: texts ignoring case, anything else as it is. */
  ghost predicate Equals(e: Engine, stored: Scalar, wanted: Scalar) {
    if wanted.Str? then stored.Str? && Folded(stored.s, e.fold) == Folded(wanted.s, e.fold)
    else stored == wanted && !stored.Null?
  }

  ghost predicate SomeEqual(e: Engine, d: Doc, key: string, wanted: Scalar) {
    exists i :: 0 <= i < |ValuesOf(d, key)| && Equals(e, ValuesOf(d, key)[i], wanted)
  }

  ghost predicate SomeInRange(e: Engine, d: Doc, key: string, cmp: Cmp, bound: Scalar) {
    exists i :: 0 <= i < |ValuesOf(d, key)| && e.inRange(cmp, ValuesOf(d, key)[i], bound)
  }

  lemma TermMeans(e: Engine, key: string, wanted: Scalar, d: Doc)
    ensures Meaning(e, TermFor(key, wanted), d) <==> SomeEqual(e, d, key, wanted)
  {
  }

  lemma RangeMeans(e: Engine, key: string, cmp: Cmp, bound: Scalar, d: Doc)
    ensures Meaning(e, Exists(key), d) && Meaning(e, Range(key, cmp, bound), d)
      <==> SomeValue(d, key) && SomeInRange(e, d, key, cmp, bound)
  {
  }

  /** `=` selects the documents with a value equal to the coerced one; `≠` those that have a
      value and no equal one, so it accepts exactly the valued documents that `=` rejects; a
      range selects those with a value in range; and `not in` accepts exactly the valued
      documents that `in` rejects. */
  lemma ComparisonsMean(e: Engine, p: Python, f: Filter, d: Doc)
    requires Translate(p, f).Ok?
    ensures f.op.Equal? ==>
      (Accepts(e, Translate(p, f).value, d) <==> SomeEqual(e, d, f.key, CoerceScalar(p, f.value).value))
    ensures f.op.NotEqual? ==>
      (Accepts(e, Translate(p, f).value, d) <==> SomeValue(d, f.key) && !SomeEqual(e, d, f.key, CoerceScalar(p, f.value).value))
    ensures f.op.NotEqual? ==>
      (Accepts(e, Translate(p, f).value, d) <==> SomeValue(d, f.key) && !Accepts(e, Translate(p, f.(op := Equal)).value, d))
    ensures f.op.Compare? ==>
      (Accepts(e, Translate(p, f).value, d) <==>
        SomeValue(d, f.key) && SomeInRange(e, d, f.key, f.op.cmp, CoerceRange(p, f.value).value))
    ensures f.op == OnText(M.NotIn) ==>
      (Accepts(e, Translate(p, f).value, d)
       <==> SomeValue(d, f.key) && !Accepts(e, Translate(p, f.(op := OnText(M.In))).value, d))
  {
    hide CoerceScalar, CoerceRange, CsvOrList, TermFor, MembersClause, Accepts, SomeEqual, SomeInRange;
    var t := Translate(p, f).value;
    if f.op.Equal? || f.op.NotEqual? || f.op.Compare? || f.op == OnText(M.NotIn) {
      AcceptsList(e, t.must, t.mustNot, d);
      if f.op.Equal? {
        TermMeans(e, f.key, CoerceScalar(p, f.value).value, d);
      } else if f.op.NotEqual? {
        TermMeans(e, f.key, CoerceScalar(p, f.value).value, d);
        AcceptsList(e, [TermFor(f.key, CoerceScalar(p, f.value).value)], [], d);
      } else if f.op.Compare? {
        RangeMeans(e, f.key, f.op.cmp, CoerceRange(p, f.value).value, d);
      } else {
        AcceptsList(e, [MembersClause(f.key, CsvOrList(p, f.value).value)], [], d);
      }
    }
  }

  /** What a comparison of numbers says. */
  predicate Compares(cmp: Cmp, a: int, b: int) {
    match cmp
    case Gt => a > b
    case Lt => a < b
    case Gte => a >= b
    case Lte => a <= b
  }

  ghost predicate ComparesNumbers(e: Engine) {
    forall cmp, a, b :: e.inRange(cmp, Num(a), Num(b)) <==> Compares(cmp, a, b)
  }

  /** On numbers a range filter compares with the number its text denotes, whatever
      spaces are around it. */
  lemma RangesCompareNumbers(e: Engine, p: Python, key: string, cmp: Cmp, t: string, n: int, d: Doc)
    requires ComparesNumbers(e) && key != "" && !p.date(Strip(t)) && p.literal(Strip(t)) == Atom(Num(n))
    requires forall i :: 0 <= i < |ValuesOf(d, key)| ==> ValuesOf(d, key)[i].Num?
    ensures var f := Filter(Compare(cmp), key, Value.One(Str(t)));
      Translate(p, f).Ok? && (Accepts(e, Translate(p, f).value, d) <==>
        exists i :: 0 <= i < |ValuesOf(d, key)| && Compares(cmp, ValuesOf(d, key)[i].n, n))
  {
    var f := Filter(Compare(cmp), key, Value.One(Str(t)));
    assert CoerceRange(p, f.value) == Ok(Num(n));
    ComparisonsMean(e, p, f, d);
    hide Accepts, Translate, CoerceRange, Strip;
    assert SomeInRange(e, d, key, cmp, Num(n)) <==>
      exists i :: 0 <= i < |ValuesOf(d, key)| && Compares(cmp, ValuesOf(d, key)[i].n, n);
  }

  /** `is_pushdown_supported`: known operators other than the two negations it fears on lists,
      and a key. */
  method IsPushdownSupported(filters: seq<Filter>) returns (yes: bool)
    ensures yes <==> forall i :: 0 <= i < |filters| ==>
      filters[i].key != "" && !filters[i].op.Unknown? && !filters[i].op.NotEqual? && filters[i].op != OnText(M.NotIn)
  {
    for i := 0 to |filters|
      invariant forall j :: 0 <= j < i ==>
        filters[j].key != "" && !filters[j].op.Unknown? && !filters[j].op.NotEqual? && filters[j].op != OnText(M.NotIn)
    {
      if filters[i].op.Unknown? || filters[i].op.NotEqual? || filters[i].op == OnText(M.NotIn) || filters[i].key == "" {
        return false;
      }
    }
    return true;
  }
}
