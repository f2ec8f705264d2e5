/** What the text of a single Infinity filter reads back as, told on what was typed. */
module InfinityComparisons {
  import opened Options
  import opened MetaDocs
  import opened SqlText
  import opened InfinityFilter
  import opened InfinityMeaning
  import F = EsFilter
  import E = EsComparisons
  import M = MetaFilter

  function TextFilter(op: Op, key: string, t: string): Filter {
    Filter(op, key, Value.One(Scalar.Str(t)))
  }

  /** A request of one test. */
  function Sole(e: Expr): Expr {
    Disj([Conj([Disj([Conj([e])])])])
  }

  /** The number that a typed text denotes once the spaces around it are off, or else the text as
      it was typed. */
  ghost predicate StandsFor(p: Python, s: string, t: string, x: Operand) {
    match p.number(s)
    case Some(n) => x == Number(n)
    case None => x == Quoted(t)
  }

  /** The same in a JSON test, where a text has double quotes around it. */
  ghost predicate StandsForJson(p: Python, s: string, t: string, x: Operand) {
    match p.number(s)
    case Some(n) => x == Number(n)
    case None => x == Quoted("\"" + t + "\"")
  }

  lemma OneList(us: seq<Expr>)
    ensures Concat([us]) == us
  {
    var lists: seq<seq<Expr>> := [us];
    assert lists[1..] == [];
    assert Concat(lists) == us + [];
  }

  lemma SingleReads(p: Python, f: Filter, e: Expr)
    requires Numeric(p) && Translate(p, f).Ok? && Trees(p, f) == [e]
    ensures Read(Whole([Translate(p, f).value], true)) == Some(Sole(e))
  {
    hide Translate, Trees, Read, Whole, Concat;
    var parts, filters := [Translate(p, f).value], [f];
    ReadsAsCondition(p, filters, parts, true);
    assert AllTrees(p, filters) == [[e]];
    OneList([e]);
  }

  lemma CoercesTo(p: Python, a: string, s: string, b: string) returns (x: Operand)
    requires E.Blank(a) && E.Trimmed(s) && E.Blank(b)
    ensures x == Coerce(p, Value.One(Scalar.Str(a + (s + b)))) && StandsFor(p, s, a + (s + b), x)
    ensures StandsForJson(p, s, a + (s + b), Json(x)) && (x.Number? <==> p.number(s).Some?)
  {
    E.StripsPadding(a, s, b);
    hide F.Strip;
    x := Coerce(p, Value.One(Scalar.Str(a + (s + b))));
  }

  /** `=`, `≠` and `contains` on a typed text: a JSON test for the number that it denotes, or for
      the text as it is. */
  lemma TestsRead(p: Python, key: string, a: string, s: string, b: string) returns (x: Operand)
    requires Numeric(p) && ValidKey(key) && E.Blank(a) && E.Trimmed(s) && E.Blank(b) && a + (s + b) != ""
    ensures StandsForJson(p, s, a + (s + b), x)
    ensures var f := TextFilter(Equal, key, a + (s + b));
      Translate(p, f).Ok? && Read(Whole([Translate(p, f).value], true)) == Some(Sole(Leaf(SqlText.Contains("$." + key, x))))
    ensures var f := TextFilter(NotEqual, key, a + (s + b));
      Translate(p, f).Ok? && Read(Whole([Translate(p, f).value], true)) == Some(Sole(Neg(Leaf(SqlText.Contains("$." + key, x)))))
    ensures var f := TextFilter(OnText(M.Contains), key, a + (s + b));
      Translate(p, f).Ok? && Read(Whole([Translate(p, f).value], true)) == Some(Sole(Leaf(SqlText.Contains("$." + key, x))))
  {
    var y := CoercesTo(p, a, s, b);
    x := Json(y);
    var t := a + (s + b);
    hide F.Strip, Coerce, Read, Whole, ContainsText, ValidKey, Numeric, Sole, StandsForJson, StandsFor, Json;
    SingleReads(p, TextFilter(Equal, key, t), Leaf(SqlText.Contains("$." + key, x)));
    SingleReads(p, TextFilter(NotEqual, key, t), Neg(Leaf(SqlText.Contains("$." + key, x))));
    SingleReads(p, TextFilter(OnText(M.Contains), key, t), Leaf(SqlText.Contains("$." + key, x)));
  }

  /** A comparison of order: of the extracted number with the number that the text denotes, or of
      the extracted text with the text as it is. */
  lemma RangeReads(p: Python, op: SqlOp, key: string, a: string, s: string, b: string) returns (x: Operand)
    requires Numeric(p) && ValidKey(key) && E.Blank(a) && E.Trimmed(s) && E.Blank(b)
    ensures StandsFor(p, s, a + (s + b), x)
    ensures var f := TextFilter(Compare(op), key, a + (s + b));
      && Translate(p, f).Ok?
      && Read(Whole([Translate(p, f).value], true)) == Some(Sole(Leaf(Extracted(p.number(s).Some?, "$." + key, op, x))))
  {
    x := CoercesTo(p, a, s, b);
    var t := a + (s + b);
    hide F.Strip, Coerce, Read, Whole, ExtractText, OperandText, ValidKey, Numeric, Sole, StandsFor, StandsForJson;
    SingleReads(p, TextFilter(Compare(op), key, t), Leaf(Extracted(p.number(s).Some?, "$." + key, op, x)));
  }

  /** `not contains` tests for the text whatever it denotes; `empty` and `not empty` compare the
      extracted text with two double quotes. */
  lemma OthersRead(p: Python, key: string, t: string, value: Value)
    requires Numeric(p) && ValidKey(key) && t != ""
    ensures var f := TextFilter(OnText(M.NotContains), key, t);
      && Translate(p, f).Ok?
      && Read(Whole([Translate(p, f).value], true)) == Some(Sole(Neg(Leaf(SqlText.Contains("$." + key, Quoted("\"" + t + "\""))))))
    ensures var f := Filter(OnText(M.Empty), key, value);
      Translate(p, f).Ok? && Read(Whole([Translate(p, f).value], true)) == Some(Sole(Leaf(Extracted(false, "$." + key, Eq, Quoted("\"\"")))))
    ensures var f := Filter(OnText(M.NotEmpty), key, value);
      Translate(p, f).Ok? && Read(Whole([Translate(p, f).value], true)) == Some(Sole(Leaf(Extracted(false, "$." + key, Ne, Quoted("\"\"")))))
  {
    hide Read, Whole, ContainsText, ExtractText, ValidKey, Numeric, Sole;
    SingleReads(p, TextFilter(OnText(M.NotContains), key, t), Neg(Leaf(SqlText.Contains("$." + key, Quoted("\"" + t + "\"")))));
    SingleReads(p, Filter(OnText(M.Empty), key, value), Leaf(Extracted(false, "$." + key, Eq, Quoted("\"\""))));
    SingleReads(p, Filter(OnText(M.NotEmpty), key, value), Leaf(Extracted(false, "$." + key, Ne, Quoted("\"\""))));
  }

  /** The test of one member of a list. */
  lemma MemberReads<D>(truth: Truth<D>, p: Python, key: string, a: string, s: string, b: string, d: D) returns (x: Operand)
    requires E.Blank(a) && E.Trimmed(s) && E.Blank(b)
    ensures StandsForJson(p, s, a + (s + b), x)
    ensures HasMember(truth, p, key, Scalar.Str(a + (s + b)), d) <==> truth(SqlText.Contains("$." + key, x), d)
  {
    var y := CoercesTo(p, a, s, b);
    x := Json(y);
    hide Coerce, F.Strip;
  }

  /** The text of a test, for a typed text that holds no quote and is no number. */
  lemma TestText(p: Python, key: string, t: string)
    requires ValidKey(key) && E.Trimmed(t) && (forall i :: 0 <= i < |t| ==> t[i] != '\'') && p.number(t) == None
    ensures Translate(p, TextFilter(Equal, key, t)) == Ok("JSON_CONTAINS(meta_fields, '$." + key + "', " + ("'\"" + t + "\"'") + ")")
  {
    hide Coerce, EscapeSql, ValidKey, ExtractText, OperandText, OpText, InText, NotInText;
    PlainCoerced(p, t);
    NothingToEscape(t);
  }

  /** The text of a comparison, for such a text and for a number. */
  lemma RangeText(p: Python, key: string, op: SqlOp, t: string)
    requires ValidKey(key) && E.Trimmed(t) && forall i :: 0 <= i < |t| ==> t[i] != '\''
    ensures Translate(p, TextFilter(Compare(op), key, t))
      == match p.number(t)
         case None => Ok("JSON_EXTRACT_STRING(meta_fields, '$." + key + "')" + " " + OpText(op) + " " + ("'" + t + "'"))
         case Some(n) => Ok("JSON_EXTRACT_DOUBLE(meta_fields, '$." + key + "')" + " " + OpText(op) + " " + n)
  {
    hide Coerce, EscapeSql, ValidKey, ContainsText, OpText, InText, NotInText;
    PlainCoerced(p, t);
    NothingToEscape(t);
  }

  lemma PlainCoerced(p: Python, t: string)
    requires E.Trimmed(t)
    ensures Coerce(p, Value.One(Scalar.Str(t))) == if p.number(t).Some? then Number(p.number(t).value) else Quoted(t)
  {
    E.StripsPadding("", t, "");
    assert "" + (t + "") == t;
    hide F.Strip;
  }

  // ------------------------------------------------- what is refused

  /** A key is letters, digits and underscores and starts with no digit; one line feed may follow. */
  lemma KeysAllowed(key: string)
    ensures ValidKey(key) && key[|key| - 1] != '\n' ==>
      forall i :: 0 <= i < |key| ==> 'a' <= key[i] <= 'z' || 'A' <= key[i] <= 'Z' || key[i] == '_' || '0' <= key[i] <= '9'
    ensures ValidKey(key) ==> !('0' <= key[0] <= '9') && '\'' !in key && ' ' !in key
    ensures ValidKey("a_1") && ValidKey("_") && ValidKey("B\n") && !ValidKey("") && !ValidKey("1a") && !ValidKey("a\nb") && !ValidKey("a\n\n")
  {
    assert "B\n"[..1] == "B" && "a\n\n"[..2] == "a\n" && "a\n\n"[1] == '\n' && "a\nb"[1] == '\n' && "1a"[0] == '1';
  }

  /** A filter is refused for a key that is not allowed or an unknown operator, and otherwise
      exactly when its value does not suit the operator. */
  lemma RefusedValues(p: Python, f: Filter)
    ensures Translate(p, f).Refused? <==>
      || !ValidKey(f.key)
      || match f.op
         case Unknown => true
         case Equal | NotEqual => !f.value.One?
         case Compare(_) => f.value.NoValue?
         case OnText(op) => match op
           case Empty | NotEmpty => false
           case In | NotIn => Members(p, f.value) == [] || Null in Members(p, f.value)
           case Contains => f.value in [NoValue, Value.One(Null), Value.One(Scalar.Str("")), Several([])]
           case _ => !f.value.One? || StrOf(p, f.value) == ""
  {
    hide Coerce, Members, InText, NotInText, ContainsText, ExtractText, ValidKey;
    var ms := Members(p, f.value);
    assert (exists i :: 0 <= i < |ms| && ms[i].Null?) <==> Null in ms;
  }
}
