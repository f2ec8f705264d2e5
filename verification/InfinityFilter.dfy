/** `metadata_infinity_filter`: filters translated to an SQL condition. */
module InfinityFilter {
  import opened Options
  import opened TextPatterns
  import opened MetaDocs
  import opened SqlText
  import F = EsFilter
  import M = MetaFilter

  datatype Op = OnText(op: M.Op) | Equal | NotEqual | Compare(cmp: SqlOp) | Unknown

  datatype Filter = Filter(op: Op, key: string, value: Value)

  /** The Python library as far as the translator uses it: `str` of values that are not
      strings; the number a text denotes, as text; the list a text denotes. */
  datatype Python = Python(show: Value -> string, fold: Fold, number: string -> Option<string>, items: string -> Option<seq<Scalar>>)

  /** Numbers print as one word. */
  ghost predicate Numeric(p: Python) {
    forall s {:trigger p.number(s)} :: p.number(s).Some? ==> IsWord(p.number(s).value)
  }

  datatype Result<+T> = Ok(value: T) | Refused

  // ------------------------------------------------- keys and values

  predicate Letter(c: char) {
    'a' <= c <= 'z' || 'A' <= c <= 'Z' || c == '_'
  }

  predicate Identifier(key: string) {
    key != "" && Letter(key[0]) && forall i :: 0 <= i < |key| ==> Letter(key[i]) || '0' <= key[i] <= '9'
  }

  /** `_validate_key`: the pattern's end also admits one line feed after the identifier. */
  predicate ValidKey(key: string) {
    Identifier(key) || (key != "" && key[|key| - 1] == '\n' && Identifier(key[..|key| - 1]))
  }

  function StrOf(p: Python, v: Value): string {
    if v.One? && v.v.Str? then v.v.s else p.show(v)
  }

  /** `_coerce_scalar` and `_coerce_range_value` differ only in the lists they refuse. */
  function Coerce(p: Python, v: Value): Operand {
    var s := StrOf(p, v);
    var n := p.number(F.Strip(s));
    if n.Some? then Number(n.value) else Quoted(s)
  }

  function CoerceString(p: Python, v: Value): Result<string> {
    if !v.One? then Refused else
    var s := StrOf(p, v);
    if s == "" then Refused else Ok(s)
  }

  /** `_csv_or_list`. */
  function Members(p: Python, v: Value): seq<Scalar> {
    match v
    case NoValue => []
    case Several(vs) => vs
    case One(Str(s)) => (var l := p.items(s); if l.Some? then l.value else F.Strings(F.SplitParts(s, "")))
    case One(x) => [x]
  }

  function Normal(p: Python, v: Scalar): Scalar {
    if v.Str? then Scalar.Str(F.Strip(Folded(v.s, p.fold))) else v
  }

  function CsvOrList(p: Python, v: Value): (r: Result<seq<Scalar>>)
    ensures r.Ok? ==> r.value != []
  {
    var ms := Members(p, v);
    if ms == [] || (exists i :: 0 <= i < |ms| && ms[i].Null?) then Refused else Ok(seq(|ms|, i requires 0 <= i < |ms| => Normal(p, ms[i])))
  }

  // ------------------------------------------------- text of one filter

  /** A JSON string inside an SQL literal. */
  function JsonText(x: Operand): string {
    if x.Quoted? then "'\"" + EscapeSql(x.s) + "\"'" else x.w
  }

  function ContainsText(key: string, x: Operand): string {
    "JSON_CONTAINS(meta_fields, '$." + key + "', " + JsonText(x) + ")"
  }

  function ExtractText(double: bool, key: string): string {
    (if double then "JSON_EXTRACT_DOUBLE(meta_fields, '$." else "JSON_EXTRACT_STRING(meta_fields, '$.") + key + "')"
  }

  /** `_translate_in`: strings first, then numbers, each group in its parentheses. */
  method TranslateIn(p: Python, key: string, members: seq<Scalar>) returns (text: string)
    requires members != []
    ensures text == InText(p, key, members)
  {
    var strings, numbers := SplitMembers(p, key, members, false);
    var conditions: seq<string> := [];
    if strings != [] {
      conditions := conditions + ["(" + Join(strings, " OR ") + ")"];
    }
    if numbers != [] {
      conditions := conditions + ["(" + Join(numbers, " OR ") + ")"];
    }
    return "(" + Join(conditions, " OR ") + ")";
  }

  /** `_translate_not_in`: the same with NOT and AND, without outer parentheses. */
  method TranslateNotIn(p: Python, key: string, members: seq<Scalar>) returns (text: string)
    requires members != []
    ensures text == NotInText(p, key, members)
  {
    var strings, numbers := SplitMembers(p, key, members, true);
    var conditions: seq<string> := [];
    if strings != [] {
      conditions := conditions + ["(" + Join(strings, " AND ") + ")"];
    }
    if numbers != [] {
      conditions := conditions + ["(" + Join(numbers, " AND ") + ")"];
    }
    return Join(conditions, " AND ");
  }

  method SplitMembers(p: Python, key: string, members: seq<Scalar>, negate: bool) returns (strings: seq<string>, numbers: seq<string>)
    ensures strings == Tests(p, key, members, negate, false) && numbers == Tests(p, key, members, negate, true)
  {
    strings, numbers := [], [];
    for i := 0 to |members|
      invariant strings == Tests(p, key, members[..i], negate, false) && numbers == Tests(p, key, members[..i], negate, true)
    {
      assert members[..i + 1][..i] == members[..i];
      var x := Coerce(p, Value.One(members[i]));
      var test := (if negate then "NOT " else "") + ContainsText(key, x);
      if x.Number? {
        numbers := numbers + [test];
      } else {
        strings := strings + [test];
      }
    }
    assert members[..|members|] == members;
  }

  /** The tests of the members that are, or are not, numbers. */
  function Tests(p: Python, key: string, members: seq<Scalar>, negate: bool, numbers: bool): seq<string> {
    if members == [] then [] else
    var x := Coerce(p, Value.One(members[|members| - 1]));
    Tests(p, key, members[..|members| - 1], negate, numbers)
    + if x.Number? == numbers then [(if negate then "NOT " else "") + ContainsText(key, x)] else []
  }

  /** Non-empty groups in their parentheses. */
  function Groups(strings: seq<string>, numbers: seq<string>, joiner: string): seq<string> {
    (if strings != [] then ["(" + Join(strings, joiner) + ")"] else [])
    + (if numbers != [] then ["(" + Join(numbers, joiner) + ")"] else [])
  }

  function InText(p: Python, key: string, members: seq<Scalar>): string {
    "(" + Join(Groups(Tests(p, key, members, false, false), Tests(p, key, members, false, true), " OR "), " OR ") + ")"
  }

  function NotInText(p: Python, key: string, members: seq<Scalar>): string {
    Join(Groups(Tests(p, key, members, true, false), Tests(p, key, members, true, true), " AND "), " AND ")
  }

  /** Falsy and not zero, the test of `_translate_contains`. */
  predicate Blank(v: Value) {
    match v
    case NoValue => true
    case One(Str(s)) => s == ""
    case One(x) => x.Null?
    case Several(vs) => vs == []
  }

  /** `MetaFilterTranslator.translate`. */
  function Translate(p: Python, f: Filter): Result<string> {
    if !ValidKey(f.key) || f.op.Unknown? then Refused else
    match f.op
    case Equal => if !f.value.One? then Refused else Ok(ContainsText(f.key, Coerce(p, f.value)))
    case NotEqual => if !f.value.One? then Refused else Ok("NOT " + ContainsText(f.key, Coerce(p, f.value)))
    case Compare(op) =>
      if f.value.NoValue? then Refused else
      var x := Coerce(p, f.value);
      Ok(ExtractText(x.Number?, f.key) + " " + OpText(op) + " " + OperandText(x))
    case OnText(op) => TranslateText(p, op, f.key, f.value)
  }

  function TranslateText(p: Python, op: M.Op, key: string, value: Value): Result<string> {
    match op
    case Empty => Ok(ExtractText(false, key) + " = '\"\"'")
    case NotEmpty => Ok(ExtractText(false, key) + " != '\"\"'")
    case In => (var ms := CsvOrList(p, value); if ms.Refused? then Refused else Ok(InText(p, key, ms.value)))
    case NotIn => (var ms := CsvOrList(p, value); if ms.Refused? then Refused else Ok(NotInText(p, key, ms.value)))
    case Contains => if Blank(value) then Refused else Ok(ContainsText(key, Coerce(p, value)))
    case NotContains =>
      (var t := CoerceString(p, value); if t.Refused? then Refused else Ok("NOT " + ContainsText(key, Quoted(t.value))))
    case StartsWith =>
      (var t := CoerceString(p, value);
       if t.Refused? then Refused else Ok(ExtractText(false, key) + " LIKE '" + EscapeSql(Escape(LIKE, t.value)) + "%'"))
    case EndsWith =>
      (var t := CoerceString(p, value);
       if t.Refused? then Refused else Ok(ExtractText(false, key) + " LIKE '%" + EscapeSql(Escape(LIKE, t.value)) + "'"))
  }

  function Whole(parts: seq<string>, conjunctive: bool): string {
    "(" + Join(parts, if conjunctive then " AND " else " OR ") + ")"
  }

  /** `build_infinity_filter`: without filters the logic does not matter. */
  method BuildInfinityFilter(p: Python, filters: seq<Filter>, logic: string) returns (r: Result<string>)
    ensures filters == [] ==> r == Ok("1=1")
    ensures filters != [] ==>
      (r.Ok? <==> logic in ["and", "or"] && forall i :: 0 <= i < |filters| ==> Translate(p, filters[i]).Ok?)
    ensures filters != [] && r.Ok? ==>
      exists parts :: Fragments(p, filters, parts) && r.value == Whole(parts, logic == "and")
  {
    if filters == [] {
      return Ok("1=1");
    }
    if logic !in ["and", "or"] {
      return Refused;
    }
    var parts: seq<string> := [];
    for i := 0 to |filters|
      invariant Fragments(p, filters[..i], parts)
    {
      var t := Translate(p, filters[i]);
      if t.Refused? {
        return Refused;
      }
      parts := parts + [t.value];
    }
    assert filters[..|filters|] == filters;
    return Ok(Whole(parts, logic == "and"));
  }

  ghost predicate Fragments(p: Python, filters: seq<Filter>, parts: seq<string>) {
    |parts| == |filters| && forall i :: 0 <= i < |filters| ==> Translate(p, filters[i]) == Ok(parts[i])
  }
}
