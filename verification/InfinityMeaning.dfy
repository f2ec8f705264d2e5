/** The Infinity filter text means the and/or of its filters: reading it back gives their
    trees, `not in` is the complement of `in`, and LIKE patterns test literal ends. */
module InfinityMeaning {
  import opened Options
  import opened TextPatterns
  import opened MetaDocs
  import opened SqlText
  import opened SqlRoundTrip
  import opened InfinityFilter
  import M = MetaFilter

  // ------------------------------------------------- the tree of one filter

  function Path(key: string): string {
    "$." + key
  }

  function Json(x: Operand): Operand {
    if x.Quoted? then Quoted("\"" + x.s + "\"") else x
  }

  function Has(key: string, x: Operand): Expr {
    Leaf(SqlText.Contains(Path(key), Json(x)))
  }

  function Extract(key: string, op: SqlOp, x: Operand): Expr {
    Leaf(Extracted(x.Number?, Path(key), op, x))
  }

  /** The member tests, strings or numbers. */
  ghost function TestTrees(p: Python, key: string, ms: seq<Scalar>, negate: bool, numbers: bool): seq<Expr> {
    if ms == [] then [] else
    var x := Coerce(p, Value.One(ms[|ms| - 1]));
    TestTrees(p, key, ms[..|ms| - 1], negate, numbers)
    + if x.Number? == numbers then [if negate then Neg(Has(key, x)) else Has(key, x)] else []
  }

  function Singles(us: seq<Expr>): (ts: seq<Expr>)
    ensures |ts| == |us| && forall i :: 0 <= i < |us| ==> ts[i] == Conj([us[i]])
  {
    seq(|us|, i requires 0 <= i < |us| => Conj([us[i]]))
  }

  /** One parenthesised group of alternatives, if there are any. */
  ghost function AnyGroup(us: seq<Expr>): seq<Expr> {
    if us == [] then [] else [Disj(Singles(us))]
  }

  /** One parenthesised group of joint tests, if there are any. */
  ghost function AllGroup(us: seq<Expr>): seq<Expr> {
    if us == [] then [] else [Disj([Conj(us)])]
  }

  ghost function InTree(p: Python, key: string, ms: seq<Scalar>): Expr {
    Disj(Singles(AnyGroup(TestTrees(p, key, ms, false, false)) + AnyGroup(TestTrees(p, key, ms, false, true))))
  }

  ghost function NotInTrees(p: Python, key: string, ms: seq<Scalar>): seq<Expr> {
    AllGroup(TestTrees(p, key, ms, true, false)) + AllGroup(TestTrees(p, key, ms, true, true))
  }

  /** The filter as a conjunction of units; all but `not in` are a single unit. */
  ghost function Trees(p: Python, f: Filter): seq<Expr>
    requires Translate(p, f).Ok?
  {
    match f.op
    case Equal => [Has(f.key, Coerce(p, f.value))]
    case NotEqual => [Neg(Has(f.key, Coerce(p, f.value)))]
    case Compare(op) => [Extract(f.key, op, Coerce(p, f.value))]
    case OnText(op) =>
      match op
      case Empty => [Extract(f.key, Eq, Quoted("\"\""))]
      case NotEmpty => [Extract(f.key, Ne, Quoted("\"\""))]
      case In => [InTree(p, f.key, CsvOrList(p, f.value).value)]
      case NotIn => NotInTrees(p, f.key, CsvOrList(p, f.value).value)
      case Contains => [Has(f.key, Coerce(p, f.value))]
      case NotContains => [Neg(Has(f.key, Quoted(CoerceString(p, f.value).value)))]
      case StartsWith => [Extract(f.key, LikeOp, Quoted(Escape(LIKE, CoerceString(p, f.value).value) + "%"))]
      case EndsWith => [Extract(f.key, LikeOp, Quoted("%" + Escape(LIKE, CoerceString(p, f.value).value)))]
  }

  // ------------------------------------------------- the text is the text of the tree

  lemma EscapeAround(a: string, s: string, b: string)
    requires (forall i :: 0 <= i < |a| ==> a[i] != '\'') && (forall i :: 0 <= i < |b| ==> b[i] != '\'')
    ensures EscapeSql(a + s + b) == a + EscapeSql(s) + b
  {
    ReplaceAppend(a + s, b, '\'', "''");
    ReplaceAppend(a, s, '\'', "''");
    NothingToEscape(a);
    NothingToEscape(b);
  }

  lemma {:induction false} NothingToEscape(s: string)
    requires forall i :: 0 <= i < |s| ==> s[i] != '\''
    ensures EscapeSql(s) == s
    decreases |s|
  {
    if s != "" {
      NothingToEscape(s[1..]);
      assert s == [s[0]] + s[1..];
    }
  }

  /** A valid key has no quote in it. */
  lemma PathQuotes(key: string)
    requires ValidKey(key)
    ensures Quote(Path(key)) == "'$." + key + "'"
  {
    forall i | 0 <= i < |Path(key)| ensures Path(key)[i] != '\'' {
      if i >= 2 { assert Path(key)[i] == key[i - 2]; }
    }
    NothingToEscape(Path(key));
  }

  lemma JsonQuotes(x: Operand)
    ensures JsonText(x) == OperandText(Json(x))
  {
    if x.Quoted? {
      EscapeAround("\"", x.s, "\"");
    }
  }

  /** The calls as the code spells them. */
  lemma CallText(name: string, prefix: string, key: string)
    requires ValidKey(key) && prefix == name + "(" + FIELDS + ", " + "'$."
    ensures Call(name, Path(key)) == prefix + key + "'"
  {
    PathQuotes(key);
    hide Quote, EscapeSql;
    var base := name + "(" + FIELDS + ", ";
    Assoc(base, "'$." + key, "'");
    Assoc(base, "'$.", key);
  }

  lemma ContainsTextIsTree(key: string, x: Operand)
    requires ValidKey(key)
    ensures ContainsText(key, x) == UnitText(Has(key, x)) && "NOT " + ContainsText(key, x) == UnitText(Neg(Has(key, x)))
  {
    var prefix := "JSON_CONTAINS(meta_fields, '$.";
    assert prefix == CONTAINS + "(" + FIELDS + ", " + "'$.";
    CallText(CONTAINS, prefix, key);
    JsonQuotes(x);
    hide Quote, OperandText, JsonText, EscapeSql, Call;
    assert "'" + ", " == "', ";
    Assoc(prefix + key, "'", ", ");
  }

  lemma StringPrefix()
    ensures "JSON_EXTRACT_STRING(meta_fields, '$." == STRING + "(" + FIELDS + ", " + "'$."
  {
  }

  lemma DoublePrefix()
    ensures "JSON_EXTRACT_DOUBLE(meta_fields, '$." == DOUBLE + "(" + FIELDS + ", " + "'$."
  {
  }

  lemma ExtractTextIsCall(double: bool, key: string)
    requires ValidKey(key)
    ensures ExtractText(double, key) == Call(if double then DOUBLE else STRING, Path(key)) + ")"
  {
    hide Quote, EscapeSql, Call, ValidKey;
    if double {
      DoublePrefix();
      CloseCall(DOUBLE, "JSON_EXTRACT_DOUBLE(meta_fields, '$.", key);
    } else {
      StringPrefix();
      CloseCall(STRING, "JSON_EXTRACT_STRING(meta_fields, '$.", key);
    }
  }

  lemma CloseCall(name: string, prefix: string, key: string)
    requires ValidKey(key) && prefix == name + "(" + FIELDS + ", " + "'$."
    ensures prefix + key + "')" == Call(name, Path(key)) + ")"
  {
    CallText(name, prefix, key);
    hide Quote, EscapeSql, Call, ValidKey;
    assert "'" + ")" == "')";
    Assoc(prefix + key, "'", ")");
  }

  lemma ExtractIsTree(key: string, op: SqlOp, x: Operand)
    requires ValidKey(key)
    ensures ExtractText(x.Number?, key) + " " + OpText(op) + " " + OperandText(x) == UnitText(Extract(key, op, x))
  {
    ExtractTextIsCall(x.Number?, key);
    hide Quote, EscapeSql, OperandText, OpText, ExtractText, Call;
    var call := Call(if x.Number? then DOUBLE else STRING, Path(key));
    assert call + ")" + " " == call + ") ";
  }

  // ------------------------------------------------- lists of texts and trees

  /** Each text is the text of the unit beside it. */
  ghost predicate Written(texts: seq<string>, us: seq<Expr>) {
    |texts| == |us| && forall i :: 0 <= i < |us| ==> texts[i] == UnitText(us[i])
  }

  lemma {:induction false} JoinAnd(texts: seq<string>, us: seq<Expr>)
    requires Written(texts, us)
    ensures Join(texts, " AND ") == AndText(us)
    decreases |us|
  {
    if |us| > 1 {
      JoinAnd(texts[1..], us[1..]);
    }
  }

  lemma {:induction false} JoinOr(texts: seq<string>, us: seq<Expr>)
    requires Written(texts, us)
    ensures Join(texts, " OR ") == OrText(us)
    decreases |us|
  {
    if |us| > 1 {
      JoinOr(texts[1..], us[1..]);
    }
  }

  lemma SingleText(u: Expr)
    ensures UnitText(Conj([u])) == UnitText(u) && AndText([u]) == UnitText(u) && OrText([u]) == UnitText(u)
  {
  }

  /** A parenthesised list of alternatives. */
  lemma AnyText(texts: seq<string>, us: seq<Expr>)
    requires Written(texts, us)
    ensures "(" + Join(texts, " OR ") + ")" == UnitText(Disj(Singles(us)))
  {
    forall i | 0 <= i < |us| ensures texts[i] == UnitText(Singles(us)[i]) { SingleText(us[i]); }
    JoinOr(texts, Singles(us));
    hide OrText, Join;
  }

  lemma AllText(texts: seq<string>, us: seq<Expr>)
    requires Written(texts, us)
    ensures "(" + Join(texts, " AND ") + ")" == UnitText(Disj([Conj(us)]))
  {
    JoinAnd(texts, us);
    SingleText(Conj(us));
    hide AndText, Join;
  }

  lemma {:induction false} TestsWritten(p: Python, key: string, ms: seq<Scalar>, negate: bool, numbers: bool)
    requires ValidKey(key)
    ensures Written(Tests(p, key, ms, negate, numbers), TestTrees(p, key, ms, negate, numbers))
    decreases |ms|
  {
    if ms != [] {
      TestsWritten(p, key, ms[..|ms| - 1], negate, numbers);
      var x := Coerce(p, Value.One(ms[|ms| - 1]));
      ContainsTextIsTree(key, x);
      hide ContainsText, UnitText, Coerce;
      assert "" + ContainsText(key, x) == ContainsText(key, x);
    }
  }

  lemma WrittenAppend(a: seq<string>, b: seq<string>, us: seq<Expr>, vs: seq<Expr>)
    requires Written(a, us) && Written(b, vs)
    ensures Written(a + b, us + vs)
  {
  }

  lemma InIsTree(p: Python, key: string, ms: seq<Scalar>)
    requires ValidKey(key)
    ensures InText(p, key, ms) == UnitText(InTree(p, key, ms))
  {
    var a, b := Tests(p, key, ms, false, false), Tests(p, key, ms, false, true);
    var us, vs := TestTrees(p, key, ms, false, false), TestTrees(p, key, ms, false, true);
    TestsWritten(p, key, ms, false, false);
    TestsWritten(p, key, ms, false, true);
    AnyText(a, us);
    AnyText(b, vs);
    hide UnitText, Join, Tests, TestTrees;
    var ga := if a != [] then ["(" + Join(a, " OR ") + ")"] else [];
    var gb := if b != [] then ["(" + Join(b, " OR ") + ")"] else [];
    assert Written(ga, AnyGroup(us)) && Written(gb, AnyGroup(vs));
    WrittenAppend(ga, gb, AnyGroup(us), AnyGroup(vs));
    AnyText(ga + gb, AnyGroup(us) + AnyGroup(vs));
  }

  lemma NotInIsTree(p: Python, key: string, ms: seq<Scalar>)
    requires ValidKey(key)
    ensures NotInText(p, key, ms) == AndText(NotInTrees(p, key, ms))
  {
    var a, b := Tests(p, key, ms, true, false), Tests(p, key, ms, true, true);
    var us, vs := TestTrees(p, key, ms, true, false), TestTrees(p, key, ms, true, true);
    TestsWritten(p, key, ms, true, false);
    TestsWritten(p, key, ms, true, true);
    AllText(a, us);
    AllText(b, vs);
    hide UnitText, Join, Tests, TestTrees;
    var ga := if a != [] then ["(" + Join(a, " AND ") + ")"] else [];
    var gb := if b != [] then ["(" + Join(b, " AND ") + ")"] else [];
    assert Written(ga, AllGroup(us)) && Written(gb, AllGroup(vs));
    WrittenAppend(ga, gb, AllGroup(us), AllGroup(vs));
    JoinAnd(ga + gb, AllGroup(us) + AllGroup(vs));
  }

  lemma LikeText(t: string)
    ensures "'" + EscapeSql(t) + "%'" == OperandText(Quoted(t + "%"))
    ensures "'%" + EscapeSql(t) + "'" == OperandText(Quoted("%" + t))
  {
    ReplaceAppend(t, "%", '\'', "''");
    ReplaceAppend("%", t, '\'', "''");
    NothingToEscape("%");
    hide EscapeSql;
    var e := EscapeSql(t);
    assert EscapeSql(t + "%") == e + "%" && EscapeSql("%" + t) == "%" + e;
    assert "%" + "'" == "%'" && "'" + "%" == "'%";
    Assoc("'", e, "%");
    Assoc("'" + e, "%", "'");
    Assoc("'", "%", e);
  }

  /** The text of a filter is the text of its tree. */
  lemma TextIsTree(p: Python, f: Filter)
    requires Translate(p, f).Ok?
    ensures Translate(p, f).value == AndText(Trees(p, f))
  {
    hide UnitText, ContainsText, ExtractText, OperandText, Coerce, CsvOrList, InText, NotInText, InTree, NotInTrees, EscapeSql, Escape;
    match f.op
    case Equal => ContainsTextIsTree(f.key, Coerce(p, f.value));
    case NotEqual => ContainsTextIsTree(f.key, Coerce(p, f.value));
    case Compare(op) => ExtractIsTree(f.key, op, Coerce(p, f.value));
    case OnText(op) => TextOpIsTree(p, f, op);
    case _ =>
  }

  lemma TextOpIsTree(p: Python, f: Filter, op: M.Op)
    requires Translate(p, f).Ok? && f.op == OnText(op)
    ensures Translate(p, f).value == AndText(Trees(p, f))
  {
    hide UnitText, ContainsText, OperandText, Coerce, CsvOrList, InText, NotInText, InTree, NotInTrees, EscapeSql, Escape, ExtractText;
    match op
    case Empty => BlankIsTree(f.key);
    case NotEmpty => BlankIsTree(f.key);
    case In => InIsTree(p, f.key, CsvOrList(p, f.value).value);
    case NotIn => NotInIsTree(p, f.key, CsvOrList(p, f.value).value);
    case Contains => ContainsTextIsTree(f.key, Coerce(p, f.value));
    case NotContains => ContainsTextIsTree(f.key, Quoted(CoerceString(p, f.value).value));
    case StartsWith => LikeIsTree(f.key, Escape(LIKE, CoerceString(p, f.value).value));
    case EndsWith => LikeIsTree(f.key, Escape(LIKE, CoerceString(p, f.value).value));
  }

  lemma BlankIsTree(key: string)
    requires ValidKey(key)
    ensures ExtractText(false, key) + " = '\"\"'" == UnitText(Extract(key, Eq, Quoted("\"\"")))
    ensures ExtractText(false, key) + " != '\"\"'" == UnitText(Extract(key, Ne, Quoted("\"\"")))
  {
    ExtractIsTree(key, Eq, Quoted("\"\""));
    ExtractIsTree(key, Ne, Quoted("\"\""));
    NothingToEscape("\"\"");
    hide EscapeSql, ExtractText, UnitText;
    var e := ExtractText(false, key);
    assert OperandText(Quoted("\"\"")) == "'\"\"'";
    assert e + " " + "=" + " " + "'\"\"'" == e + " = '\"\"'";
    assert e + " " + "!=" + " " + "'\"\"'" == e + " != '\"\"'";
  }

  lemma LikeIsTree(key: string, t: string)
    requires ValidKey(key)
    ensures ExtractText(false, key) + " LIKE '" + EscapeSql(t) + "%'" == UnitText(Extract(key, LikeOp, Quoted(t + "%")))
    ensures ExtractText(false, key) + " LIKE '%" + EscapeSql(t) + "'" == UnitText(Extract(key, LikeOp, Quoted("%" + t)))
  {
    ExtractIsTree(key, LikeOp, Quoted(t + "%"));
    ExtractIsTree(key, LikeOp, Quoted("%" + t));
    LikeText(t);
    hide EscapeSql, ExtractText, UnitText, OperandText;
    var e := ExtractText(false, key);
    assert e + " " + "LIKE" + " " + ("'" + EscapeSql(t) + "%'") == e + " LIKE '" + EscapeSql(t) + "%'";
    assert e + " " + "LIKE" + " " + ("'%" + EscapeSql(t) + "'") == e + " LIKE '%" + EscapeSql(t) + "'";
  }

  // ------------------------------------------------- the whole condition

  ghost function Concat(lists: seq<seq<Expr>>): seq<Expr> {
    if lists == [] then [] else lists[0] + Concat(lists[1..])
  }

  ghost function Conjs(lists: seq<seq<Expr>>): (ts: seq<Expr>)
    ensures |ts| == |lists| && forall i :: 0 <= i < |lists| ==> ts[i] == Conj(lists[i])
  {
    seq(|lists|, i requires 0 <= i < |lists| => Conj(lists[i]))
  }

  ghost function AllTrees(p: Python, filters: seq<Filter>): (lists: seq<seq<Expr>>)
    requires forall i :: 0 <= i < |filters| ==> Translate(p, filters[i]).Ok?
    ensures |lists| == |filters| && forall i :: 0 <= i < |filters| ==> lists[i] == Trees(p, filters[i])
  {
    seq(|filters|, i requires 0 <= i < |filters| => Trees(p, filters[i]))
  }

  /** The tree of a whole request: all filters' units in one conjunction, or one conjunction
      for each filter. */
  ghost function Condition(lists: seq<seq<Expr>>, conjunctive: bool): seq<Expr> {
    if conjunctive then [Conj(Concat(lists))] else Conjs(lists)
  }

  lemma {:induction false} AndTextAppend(us: seq<Expr>, vs: seq<Expr>)
    requires us != [] && vs != []
    ensures AndText(us + vs) == AndText(us) + " AND " + AndText(vs)
    decreases |us|
  {
    if |us| == 1 {
      assert us + vs == [us[0]] + vs && (us + vs)[1..] == vs;
    } else {
      assert (us + vs)[1..] == us[1..] + vs;
      AndTextAppend(us[1..], vs);
      hide UnitText;
      Assoc(UnitText(us[0]) + " AND ", AndText(us[1..]), " AND " + AndText(vs));
      Assoc(AndText(us[1..]), " AND ", AndText(vs));
      Assoc(UnitText(us[0]) + " AND " + AndText(us[1..]), " AND ", AndText(vs));
    }
  }

  lemma {:induction false} JoinConcat(parts: seq<string>, lists: seq<seq<Expr>>)
    requires |parts| == |lists| && forall i :: 0 <= i < |lists| ==> lists[i] != [] && parts[i] == AndText(lists[i])
    ensures Join(parts, " AND ") == AndText(Concat(lists)) && (lists != [] ==> Concat(lists) != [])
    decreases |lists|
  {
    if |lists| == 1 {
      assert lists[0] + Concat(lists[1..]) == lists[0];
    } else if lists != [] {
      JoinConcat(parts[1..], lists[1..]);
      AndTextAppend(lists[0], Concat(lists[1..]));
      hide AndText;
    }
  }

  /** The rendered condition is the text of its tree, in parentheses. */
  lemma WholeText(parts: seq<string>, lists: seq<seq<Expr>>, conjunctive: bool)
    requires |parts| == |lists| > 0 && forall i :: 0 <= i < |lists| ==> lists[i] != [] && parts[i] == AndText(lists[i])
    ensures Whole(parts, conjunctive) == UnitText(Disj(Condition(lists, conjunctive)))
  {
    if conjunctive {
      JoinConcat(parts, lists);
      SingleText(Conj(Concat(lists)));
    } else {
      assert Written(parts, Conjs(lists));
      JoinOr(parts, Conjs(lists));
    }
  }

  // ------------------------------------------------- reading back

  lemma CoerceOk(p: Python, v: Value)
    requires Numeric(p)
    ensures OperandOk(Coerce(p, v)) && OperandOk(Json(Coerce(p, v)))
  {
  }

  lemma {:induction false} TestTreesOk(p: Python, key: string, ms: seq<Scalar>, negate: bool, numbers: bool)
    requires Numeric(p)
    ensures var us := TestTrees(p, key, ms, negate, numbers); us == [] || IsAnd(us)
    decreases |ms|
  {
    if ms != [] {
      TestTreesOk(p, key, ms[..|ms| - 1], negate, numbers);
      var x := Coerce(p, Value.One(ms[|ms| - 1]));
      CoerceOk(p, Value.One(ms[|ms| - 1]));
      assert IsUnit(Has(key, x)) && IsUnit(Neg(Has(key, x)));
    }
  }

  /** Every member has its test in one of the two groups. */
  lemma SomeTest(p: Python, key: string, ms: seq<Scalar>, negate: bool)
    requires ms != []
    ensures TestTrees(p, key, ms, negate, false) != [] || TestTrees(p, key, ms, negate, true) != []
  {
  }

  lemma AnyOk(us: seq<Expr>)
    requires us == [] || IsAnd(us)
    ensures us != [] ==> IsOr(Singles(us)) && IsUnit(Disj(Singles(us)))
    ensures AnyGroup(us) == [] || IsAnd(AnyGroup(us))
    ensures AllGroup(us) == [] || IsAnd(AllGroup(us))
  {
    forall i | 0 <= i < |us| ensures IsAnd([us[i]]) {
      var one: seq<Expr> := [us[i]];
      assert IsUnit(us[i]) && one[0] == us[i];
    }
    if us != [] {
      var any: seq<Expr>, all: seq<Expr> := [Disj(Singles(us))], [Disj([Conj(us)])];
      var t: seq<Expr> := [Conj(us)];
      assert t[0] == Conj(us);
      assert IsOr(t) && IsUnit(all[0]) && IsUnit(any[0]);
    }
  }

  lemma AndOkAppend(us: seq<Expr>, vs: seq<Expr>)
    requires (us == [] || IsAnd(us)) && (vs == [] || IsAnd(vs)) && us + vs != []
    ensures IsAnd(us + vs)
  {
    hide IsUnit;
    forall i | 0 <= i < |us + vs| ensures IsUnit((us + vs)[i]) {
      if i < |us| { assert IsUnit(us[i]); } else { assert IsUnit(vs[i - |us|]); }
    }
  }

  lemma MembershipOk(p: Python, key: string, ms: seq<Scalar>)
    requires Numeric(p) && ms != []
    ensures IsUnit(InTree(p, key, ms)) && IsAnd(NotInTrees(p, key, ms))
  {
    hide IsUnit, IsAnd, TestTrees;
    forall negate: bool, numbers: bool ensures TestTrees(p, key, ms, negate, numbers) == [] || IsAnd(TestTrees(p, key, ms, negate, numbers)) {
      TestTreesOk(p, key, ms, negate, numbers);
    }
    SomeTest(p, key, ms, false);
    SomeTest(p, key, ms, true);
    var a, b := TestTrees(p, key, ms, false, false), TestTrees(p, key, ms, false, true);
    var c, d := TestTrees(p, key, ms, true, false), TestTrees(p, key, ms, true, true);
    AnyOk(a);
    AnyOk(b);
    AnyOk(c);
    AnyOk(d);
    AndOkAppend(AnyGroup(a), AnyGroup(b));
    AnyOk(AnyGroup(a) + AnyGroup(b));
    AndOkAppend(AllGroup(c), AllGroup(d));
  }

  lemma OneUnit(u: Expr)
    requires IsUnit(u)
    ensures IsAnd([u])
  {
    var one: seq<Expr> := [u];
    assert one[0] == u;
  }

  lemma TreesOk(p: Python, f: Filter)
    requires Numeric(p) && Translate(p, f).Ok?
    ensures IsAnd(Trees(p, f))
  {
    CoerceOk(p, f.value);
    if f.op == OnText(M.In) || f.op == OnText(M.NotIn) {
      MembershipOk(p, f.key, CsvOrList(p, f.value).value);
    }
    hide IsAnd, Coerce, InTree, NotInTrees, CsvOrList, OperandOk;
    var ts := Trees(p, f);
    if f.op != OnText(M.NotIn) {
      UnitOk(p, f);
      assert ts == [ts[0]];
      OneUnit(ts[0]);
    }
  }

  lemma MembershipUnitOk(p: Python, f: Filter)
    requires Numeric(p) && Translate(p, f).Ok? && f.op == OnText(M.In)
    ensures |Trees(p, f)| == 1 && IsUnit(Trees(p, f)[0])
  {
    hide InTree, IsUnit;
    MembershipOk(p, f.key, CsvOrList(p, f.value).value);
  }

  lemma UnitOk(p: Python, f: Filter)
    requires Numeric(p) && Translate(p, f).Ok? && f.op != OnText(M.NotIn)
    ensures |Trees(p, f)| == 1 && IsUnit(Trees(p, f)[0])
  {
    if f.op == OnText(M.In) {
      MembershipUnitOk(p, f);
    } else {
      hide Translate, Coerce, InTree, NotInTrees, CsvOrList, Escape;
      CoerceOk(p, f.value);
    }
  }

  lemma {:induction false} ConcatOk(lists: seq<seq<Expr>>)
    requires lists != [] && forall i :: 0 <= i < |lists| ==> IsAnd(lists[i])
    ensures IsAnd(Concat(lists))
    decreases |lists|
  {
    hide IsAnd;
    if |lists| == 1 {
      assert Concat(lists) == lists[0];
    } else {
      ConcatOk(lists[1..]);
      NotEmptyAnd(lists[0]);
      AndOkAppend(lists[0], Concat(lists[1..]));
    }
  }

  lemma NotEmptyAnd(us: seq<Expr>)
    requires IsAnd(us)
    ensures us != []
  {
  }

  lemma ConditionOk(lists: seq<seq<Expr>>, conjunctive: bool)
    requires lists != [] && forall i :: 0 <= i < |lists| ==> IsAnd(lists[i])
    ensures IsOr(Condition(lists, conjunctive)) && IsOr([Conj([Disj(Condition(lists, conjunctive))])])
  {
    ConcatOk(lists);
    var terms := Condition(lists, conjunctive);
    assert IsUnit(Disj(terms)) by { hide IsAnd; }
    OneUnit(Disj(terms));
    hide IsAnd, IsUnit;
  }

  /** The text of a request reads back, under NOT over AND over OR, as exactly the tree of its
      filters, whatever texts and quotes the filters hold. */
  lemma ReadsAsCondition(p: Python, filters: seq<Filter>, parts: seq<string>, conjunctive: bool)
    requires Numeric(p) && filters != [] && Fragments(p, filters, parts)
    ensures Read(Whole(parts, conjunctive)) == Some(Disj([Conj([Disj(Condition(AllTrees(p, filters), conjunctive))])]))
  {
    hide Translate, Trees, AndText, IsAnd, UnitText, OrText, Whole, Read, Condition;
    var lists := AllTrees(p, filters);
    forall i | 0 <= i < |lists| ensures lists[i] != [] && parts[i] == AndText(lists[i]) && IsAnd(lists[i]) {
      assert Translate(p, filters[i]) == Ok(parts[i]);
      TextIsTree(p, filters[i]);
      TreesOk(p, filters[i]);
      NotEmptyAnd(lists[i]);
    }
    WholeText(parts, lists, conjunctive);
    ConditionOk(lists, conjunctive);
    var unit := Disj(Condition(lists, conjunctive));
    SingleText(unit);
    SingleText(Conj([unit]));
    ReadsBack([Conj([unit])]);
  }

  // ------------------------------------------------- what the condition means

  /** What an atom says of a document of any type. */
  type Truth<!D> = (Atom, D) -> bool

  ghost predicate Eval<D>(truth: Truth<D>, e: Expr, d: D) {
    match e
    case Leaf(a) => truth(a, d)
    case Neg(u) => !Eval(truth, u, d)
    case Conj(us) => forall i :: 0 <= i < |us| ==> Eval(truth, us[i], d)
    case Disj(ts) => exists i :: 0 <= i < |ts| && Eval(truth, ts[i], d)
  }

  /** A filter on its own. */
  ghost predicate Accepts<D>(truth: Truth<D>, p: Python, f: Filter, d: D)
    requires Translate(p, f).Ok?
  {
    Eval(truth, Conj(Trees(p, f)), d)
  }

  lemma {:induction false} ConcatEval<D>(truth: Truth<D>, lists: seq<seq<Expr>>, d: D)
    ensures Eval(truth, Conj(Concat(lists)), d) <==> forall i :: 0 <= i < |lists| ==> Eval(truth, Conj(lists[i]), d)
    decreases |lists|
  {
    if lists != [] {
      ConcatEval(truth, lists[1..], d);
      ConjAppend(truth, lists[0], Concat(lists[1..]), d);
      hide Eval, Concat;
      if forall i :: 0 <= i < |lists| - 1 ==> Eval(truth, Conj(lists[1..][i]), d) {
        forall i | 1 <= i < |lists| ensures Eval(truth, Conj(lists[i]), d) { assert lists[i] == lists[1..][i - 1]; }
      }
    }
  }

  lemma ConjAppend<D>(truth: Truth<D>, us: seq<Expr>, vs: seq<Expr>, d: D)
    ensures Eval(truth, Conj(us + vs), d) <==> Eval(truth, Conj(us), d) && Eval(truth, Conj(vs), d)
  {
    var all := us + vs;
    forall i | 0 <= i < |us| ensures all[i] == us[i] { }
    forall i | 0 <= i < |vs| ensures all[|us| + i] == vs[i] { }
  }

  lemma Wrapped<D>(truth: Truth<D>, e: Expr, d: D)
    ensures Eval(truth, Disj([Conj([e])]), d) <==> Eval(truth, e, d)
  {
    var us: seq<Expr>, ts: seq<Expr> := [e], [Conj([e])];
    assert us[0] == e && ts[0] == Conj(us);
    assert Eval(truth, Conj(us), d) <==> Eval(truth, us[0], d);
    assert Eval(truth, Disj(ts), d) <==> Eval(truth, ts[0], d);
  }

  lemma SoleTerm<D>(truth: Truth<D>, t: Expr, d: D)
    ensures Eval(truth, Disj([t]), d) <==> Eval(truth, t, d)
  {
    var ts: seq<Expr> := [t];
    assert ts[0] == t;
    assert Eval(truth, Disj(ts), d) <==> Eval(truth, ts[0], d);
  }

  /** What is read back means the and, or the or, of the single filters. */
  lemma ConditionMeans<D>(truth: Truth<D>, p: Python, filters: seq<Filter>, parts: seq<string>, conjunctive: bool, d: D)
    requires Numeric(p) && filters != [] && Fragments(p, filters, parts)
    ensures Read(Whole(parts, conjunctive)).Some?
    ensures Eval(truth, Read(Whole(parts, conjunctive)).value, d) <==>
      if conjunctive then forall i :: 0 <= i < |filters| ==> Accepts(truth, p, filters[i], d)
      else exists i :: 0 <= i < |filters| && Accepts(truth, p, filters[i], d)
  {
    hide Translate, Trees, Whole, Read;
    ReadsAsCondition(p, filters, parts, conjunctive);
    var lists := AllTrees(p, filters);
    Wrapped(truth, Disj(Condition(lists, conjunctive)), d);
    if conjunctive {
      SoleTerm(truth, Conj(Concat(lists)), d);
      ConcatEval(truth, lists, d);
    } else {
      assert Conjs(lists) == Condition(lists, conjunctive);
      assert Eval(truth, Disj(Conjs(lists)), d) <==> exists i :: 0 <= i < |lists| && Eval(truth, Conjs(lists)[i], d);
    }
  }

  // ------------------------------------------------- membership and its complement

  /** The test of one member. */
  ghost predicate HasMember<D>(truth: Truth<D>, p: Python, key: string, m: Scalar, d: D) {
    truth(SqlText.Contains(Path(key), Json(Coerce(p, Value.One(m)))), d)
  }

  ghost predicate SomeEval<D>(truth: Truth<D>, us: seq<Expr>, d: D) {
    exists i :: 0 <= i < |us| && Eval(truth, us[i], d)
  }

  lemma SinglesEval<D>(truth: Truth<D>, us: seq<Expr>, d: D)
    ensures Eval(truth, Disj(Singles(us)), d) <==> SomeEval(truth, us, d)
  {
    var ts := Singles(us);
    forall i | 0 <= i < |us| ensures Eval(truth, ts[i], d) <==> Eval(truth, us[i], d) { ConjOne(truth, us[i], d); }
    assert Eval(truth, Disj(ts), d) <==> exists i :: 0 <= i < |ts| && Eval(truth, ts[i], d);
  }

  lemma ConjOne<D>(truth: Truth<D>, u: Expr, d: D)
    ensures Eval(truth, Conj([u]), d) <==> Eval(truth, u, d)
  {
    var us: seq<Expr> := [u];
    assert us[0] == u;
    assert Eval(truth, Conj(us), d) <==> Eval(truth, us[0], d);
  }

  lemma AnyGroupEval<D>(truth: Truth<D>, us: seq<Expr>, d: D)
    ensures SomeEval(truth, AnyGroup(us), d) <==> SomeEval(truth, us, d)
  {
    SinglesEval(truth, us, d);
    hide Eval;
    if us != [] { assert AnyGroup(us)[0] == Disj(Singles(us)); }
  }

  lemma AllGroupEval<D>(truth: Truth<D>, us: seq<Expr>, d: D)
    ensures Eval(truth, Conj(AllGroup(us)), d) <==> Eval(truth, Conj(us), d)
  {
    if us != [] {
      ConjOne(truth, Disj([Conj(us)]), d);
      SoleTerm(truth, Conj(us), d);
    }
  }

  lemma SomeEvalAppend<D>(truth: Truth<D>, us: seq<Expr>, vs: seq<Expr>, d: D)
    ensures SomeEval(truth, us + vs, d) <==> SomeEval(truth, us, d) || SomeEval(truth, vs, d)
  {
    hide Eval;
    var all := us + vs;
    if i :| 0 <= i < |us| && Eval(truth, us[i], d) { assert all[i] == us[i]; }
    if i :| 0 <= i < |vs| && Eval(truth, vs[i], d) { assert all[|us| + i] == vs[i]; }
  }

  ghost predicate SomeMember<D>(truth: Truth<D>, p: Python, key: string, ms: seq<Scalar>, d: D) {
    exists i :: 0 <= i < |ms| && HasMember(truth, p, key, ms[i], d)
  }

  /** The two groups of tests together test every member, plainly or negated. */
  lemma {:induction false} TestsMean<D>(truth: Truth<D>, p: Python, key: string, ms: seq<Scalar>, d: D)
    ensures SomeEval(truth, TestTrees(p, key, ms, false, false), d) || SomeEval(truth, TestTrees(p, key, ms, false, true), d)
      <==> SomeMember(truth, p, key, ms, d)
    ensures Eval(truth, Conj(TestTrees(p, key, ms, true, false)), d) && Eval(truth, Conj(TestTrees(p, key, ms, true, true)), d)
      <==> !SomeMember(truth, p, key, ms, d)
    decreases |ms|
  {
    if ms != [] {
      var front, m := ms[..|ms| - 1], ms[|ms| - 1];
      TestsMean(truth, p, key, front, d);
      var t := Has(key, Coerce(p, Value.One(m)));
      forall numbers: bool
        ensures SomeEval(truth, TestTrees(p, key, ms, false, numbers), d)
          <==> SomeEval(truth, TestTrees(p, key, front, false, numbers), d)
               || (Coerce(p, Value.One(m)).Number? == numbers && Eval(truth, t, d))
        ensures Eval(truth, Conj(TestTrees(p, key, ms, true, numbers)), d)
          <==> Eval(truth, Conj(TestTrees(p, key, front, true, numbers)), d)
               && (Coerce(p, Value.One(m)).Number? == numbers ==> !Eval(truth, t, d))
      {
        LastTest(truth, p, key, ms, numbers, d);
      }
      SomeMemberLast(truth, p, key, ms, d);
      hide TestTrees, Coerce, SomeMember, SomeEval;
    }
  }

  lemma SomeMemberLast<D>(truth: Truth<D>, p: Python, key: string, ms: seq<Scalar>, d: D)
    requires ms != []
    ensures SomeMember(truth, p, key, ms, d)
      <==> SomeMember(truth, p, key, ms[..|ms| - 1], d) || HasMember(truth, p, key, ms[|ms| - 1], d)
  {
    hide HasMember;
  }

  lemma LastTest<D>(truth: Truth<D>, p: Python, key: string, ms: seq<Scalar>, numbers: bool, d: D)
    requires ms != []
    ensures var front, m := ms[..|ms| - 1], ms[|ms| - 1];
      var t := Has(key, Coerce(p, Value.One(m)));
      && (SomeEval(truth, TestTrees(p, key, ms, false, numbers), d)
          <==> SomeEval(truth, TestTrees(p, key, front, false, numbers), d)
               || (Coerce(p, Value.One(m)).Number? == numbers && Eval(truth, t, d)))
      && (Eval(truth, Conj(TestTrees(p, key, ms, true, numbers)), d)
          <==> Eval(truth, Conj(TestTrees(p, key, front, true, numbers)), d)
               && (Coerce(p, Value.One(m)).Number? == numbers ==> !Eval(truth, t, d)))
  {
    var front, m := ms[..|ms| - 1], ms[|ms| - 1];
    var x := Coerce(p, Value.One(m));
    var t := Has(key, x);
    var one: seq<Expr>, no: seq<Expr> := [t], [Neg(t)];
    assert one[0] == t;
    assert SomeEval(truth, one, d) <==> Eval(truth, t, d);
    ConjOne(truth, Neg(t), d);
    SomeEvalAppend(truth, TestTrees(p, key, front, false, numbers), one, d);
    ConjAppend(truth, TestTrees(p, key, front, true, numbers), no, d);
    assert Eval(truth, Neg(t), d) <==> !Eval(truth, t, d);
    hide Eval, SomeEval, Coerce, Has;
    assert TestTrees(p, key, front, false, numbers) + [] == TestTrees(p, key, front, false, numbers);
    assert TestTrees(p, key, front, true, numbers) + [] == TestTrees(p, key, front, true, numbers);
  }

  /** `in` accepts the documents that have one of the members; `not in` accepts exactly the
      others. */
  lemma NotInIsComplement<D>(truth: Truth<D>, p: Python, f: Filter, g: Filter, d: D)
    requires f.op == OnText(M.In) && g == f.(op := OnText(M.NotIn)) && Translate(p, f).Ok?
    ensures Translate(p, g).Ok?
    ensures Accepts(truth, p, f, d) <==> SomeMember(truth, p, f.key, CsvOrList(p, f.value).value, d)
    ensures Accepts(truth, p, g, d) <==> !Accepts(truth, p, f, d)
  {
    hide TestTrees, SomeMember, CsvOrList, Eval;
    var ms, key := CsvOrList(p, f.value).value, f.key;
    TestsMean(truth, p, key, ms, d);
    var a, b := TestTrees(p, key, ms, false, false), TestTrees(p, key, ms, false, true);
    AnyGroupEval(truth, a, d);
    AnyGroupEval(truth, b, d);
    SomeEvalAppend(truth, AnyGroup(a), AnyGroup(b), d);
    SinglesEval(truth, AnyGroup(a) + AnyGroup(b), d);
    ConjOne(truth, InTree(p, key, ms), d);
    var c, e := TestTrees(p, key, ms, true, false), TestTrees(p, key, ms, true, true);
    AllGroupEval(truth, c, d);
    AllGroupEval(truth, e, d);
    ConjAppend(truth, AllGroup(c), AllGroup(e), d);
    hide SomeEval, AnyGroup, AllGroup;
  }

  // ------------------------------------------------- literal ends

  /** The engine compares the extracted text with a LIKE pattern, character by character. */
  ghost predicate Compares<D(!new)>(truth: Truth<D>, extract: (string, D) -> Option<string>) {
    forall path, pattern, d {:trigger truth(Extracted(false, path, LikeOp, Quoted(pattern)), d)} ::
      truth(Extracted(false, path, LikeOp, Quoted(pattern)), d)
      <==> extract(path, d).Some? && Like(LIKE, pattern, extract(path, d).value, c => c)
  }

  lemma SameFolded(s: string)
    ensures Folded(s, c => c) == s
  {
  }

  /** `start with` and `end with` test literal ends: both escapes are undone, whatever
      wildcards, backslashes and quotes the text holds. */
  lemma LiteralEnds<D(!new)>(truth: Truth<D>, extract: (string, D) -> Option<string>, p: Python, f: Filter, t: string, d: D)
    requires Compares(truth, extract) && f.value == Value.One(Scalar.Str(t)) && t != "" && ValidKey(f.key)
    requires f.op == OnText(M.StartsWith) || f.op == OnText(M.EndsWith)
    ensures Translate(p, f).Ok?
    ensures var s := extract(Path(f.key), d);
      Accepts(truth, p, f, d) <==>
        s.Some? && if f.op == OnText(M.StartsWith) then t <= s.value else Ends(s.value, t)
  {
    hide Escape, Like, Folded, Ends;
    var id := (c: char) => c;
    var pattern := if f.op == OnText(M.StartsWith) then Escape(LIKE, t) + "%" else "%" + Escape(LIKE, t);
    assert ['%'] == "%";
    ConjOne(truth, Extract(f.key, LikeOp, Quoted(pattern)), d);
    assert Eval(truth, Leaf(Extracted(false, Path(f.key), LikeOp, Quoted(pattern))), d)
      <==> truth(Extracted(false, Path(f.key), LikeOp, Quoted(pattern)), d);
    var s := extract(Path(f.key), d);
    if s.Some? {
      PrefixPattern(LIKE, t, s.value, c => c);
      SuffixPattern(LIKE, t, s.value, c => c);
      SameFolded(t);
      SameFolded(s.value);
    }
  }
}
