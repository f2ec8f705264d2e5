/** What a pushed-down filter compares with, told on the text that was typed. */
module EsComparisons {
  import opened TextPatterns
  import opened MetaDocs
  import opened EsQuery
  import opened EsFilter
  import opened EsAgreement
  import opened EsMembership
  import M = MetaFilter

  // ------------------------------------------------- stripping and splitting

  ghost predicate Blank(s: string) {
    forall i :: 0 <= i < |s| ==> s[i] in " \t\n\r"
  }

  ghost predicate Trimmed(s: string) {
    s == "" || (s[0] !in " \t\n\r" && s[|s| - 1] !in " \t\n\r")
  }

  lemma {:induction false} LeftPadding(a: string, s: string)
    requires Blank(a)
    ensures StripLeft(a + s) == StripLeft(s)
    decreases |a|
  {
    if a == "" {
      assert a + s == s;
    } else {
      assert (a + s)[1..] == a[1..] + s && Space(a[0]);
      LeftPadding(a[1..], s);
    }
  }

  lemma {:induction false} RightPadding(s: string, b: string)
    requires Blank(b)
    ensures StripRight(s + b) == StripRight(s)
    decreases |b|
  {
    if b == "" {
      assert s + b == s;
    } else {
      var front, last := b[..|b| - 1], b[|b| - 1];
      assert (s + b)[..|s + b| - 1] == s + front && (s + b)[|s + b| - 1] == last && Space(last);
      RightPadding(s, front);
    }
  }

  /** Stripping takes the spaces off both ends and nothing else. */
  lemma StripsPadding(a: string, s: string, b: string)
    requires Blank(a) && Trimmed(s) && Blank(b)
    ensures Strip(a + (s + b)) == s
  {
    LeftPadding(a, s + b);
    if s == "" {
      assert s + b == b + "";
      LeftPadding(b, "");
    } else {
      assert (s + b)[0] == s[0];
      RightPadding(s, b);
    }
  }

  /** Parts between commas: those before a comma and those after it. */
  lemma {:induction false} SplitsAtComma(a: string, b: string, part: string)
    ensures SplitParts(a + ("," + b), part) == SplitParts(a, part) + SplitParts(b, "")
    decreases |a|
  {
    hide Kept;
    var s := a + ("," + b);
    if a == "" {
      assert s[0] == ',' && s[1..] == b;
    } else {
      assert s[0] == a[0] && s[1..] == a[1..] + ("," + b);
      SplitsAtComma(a[1..], b, if a[0] == ',' then "" else part + [a[0]]);
    }
  }

  /** A part is stripped, and dropped when nothing is left of it. */
  lemma OnePart(a: string, s: string, b: string)
    requires Blank(a) && Trimmed(s) && Blank(b) && ',' !in a + (s + b)
    ensures SplitParts(a + (s + b), "") == if s == "" then [] else [s]
  {
    StripsPadding(a, s, b);
    PlainPart(a + (s + b), "");
    hide SplitParts, Strip;
    assert "" + (a + (s + b)) == a + (s + b);
  }

  // ------------------------------------------------- equality

  /** Some stored text is t, ignoring case. */
  ghost predicate TextEqual(e: Engine, d: Doc, key: string, t: string) {
    exists i :: 0 <= i < |ValuesOf(d, key)| && ValuesOf(d, key)[i].Str? && Folded(ValuesOf(d, key)[i].s, e.fold) == Folded(t, e.fold)
  }

  ghost predicate ValueEqual(d: Doc, key: string, v: Scalar) {
    exists i :: 0 <= i < |ValuesOf(d, key)| && ValuesOf(d, key)[i] == v
  }

  function EqualTo(key: string, t: string): Filter {
    Filter(Equal, key, Value.One(Str(t)))
  }

  /** What a typed text stands for in an equality, spaces around it aside: a date for itself, a
      number or a truth value for that value, a quoted text for what is in the quotes, and any
      other text for itself. Texts compare without regard to case. */
  lemma EqualsCompare(e: Engine, p: Python, key: string, a: string, s: string, b: string, d: Doc)
    requires e.fold == p.fold && Idempotent(p.fold) && key != "" && Blank(a) && Trimmed(s) && Blank(b)
    ensures Translate(p, EqualTo(key, a + (s + b))).Ok?
    ensures var yes := Accepts(e, Translate(p, EqualTo(key, a + (s + b))).value, d);
      if p.date(s) then yes <==> TextEqual(e, d, key, s)
      else match p.literal(s)
        case Atom(Num(n)) => yes <==> ValueEqual(d, key, Num(n))
        case Atom(Flag(f)) => yes <==> ValueEqual(d, key, Flag(f))
        case Atom(Str(t)) => yes <==> TextEqual(e, d, key, t)
        case _ => yes <==> TextEqual(e, d, key, s)
  {
    StripsPadding(a, s, b);
    var f := EqualTo(key, a + (s + b));
    ComparisonsMean(e, p, f, d);
    var v := CoerceScalar(p, f.value).value;
    hide Accepts, Translate, Strip, ValuesOf;
    M.FoldedTwice(s, e.fold);
    match p.literal(s)
    case Atom(Str(t)) => M.FoldedTwice(t, e.fold); EqualMeans(e, d, key, v);
    case _ => EqualMeans(e, d, key, v);
  }

  lemma EqualMeans(e: Engine, d: Doc, key: string, v: Scalar)
    ensures v.Str? ==> (SomeEqual(e, d, key, v) <==> TextEqual(e, d, key, v.s))
    ensures v.Num? || v.Flag? ==> (SomeEqual(e, d, key, v) <==> ValueEqual(d, key, v))
  {
  }

  // ------------------------------------------------- texts

  /** Contains, start with and end with, position by position. */
  lemma TextOperatorsMean(p: Python, e: Engine, key: string, t: string, d: Doc)
    requires key != "" && t != ""
    ensures forall op :: op == M.Contains || op == M.StartsWith || op == M.EndsWith || op == M.NotContains ==>
      Translate(p, Pushed(TextFilter(op, key, t))).Ok?
    ensures Accepts(e, Translate(p, Pushed(TextFilter(M.Contains, key, t))).value, d)
      <==> exists i, k :: TextAt(d, key, i) && 0 <= k && FoldedAt(e, ValuesOf(d, key)[i].s, t, k)
    ensures Accepts(e, Translate(p, Pushed(TextFilter(M.StartsWith, key, t))).value, d)
      <==> exists i :: TextAt(d, key, i) && FoldedAt(e, ValuesOf(d, key)[i].s, t, 0)
    ensures Accepts(e, Translate(p, Pushed(TextFilter(M.EndsWith, key, t))).value, d)
      <==> exists i :: TextAt(d, key, i) && FoldedAt(e, ValuesOf(d, key)[i].s, t, |ValuesOf(d, key)[i].s| - |t|)
    ensures Accepts(e, Translate(p, Pushed(TextFilter(M.NotContains, key, t))).value, d)
      <==> SomeValue(d, key) && !Accepts(e, Translate(p, Pushed(TextFilter(M.Contains, key, t))).value, d)
  {
    hide Accepts, Translate, Meaning, Escape, ContainsClause, FoldedAt, SomeValue;
    TextTranslates(p, key, t);
    AcceptsOne(e, ContainsClause(key, t), d);
    AcceptsOne(e, Prefix(key, t), d);
    AcceptsOne(e, Wildcard(key, "*" + Escape(ES, t)), d);
    AcceptsBut(e, Exists(key), ContainsClause(key, t), d);
    ContainsMeans(e, key, t, d);
    PrefixMeans(e, key, t, d);
    SuffixMeans(e, key, t, d);
    ExistsMeans(e, key, d);
    TestsAt(e, d, key, t);
  }

  ghost predicate TextAt(d: Doc, key: string, i: int) {
    0 <= i < |ValuesOf(d, key)| && ValuesOf(d, key)[i].Str?
  }

  /** From position k on, s reads t, ignoring case. */
  ghost predicate FoldedAt(e: Engine, s: string, t: string, k: int) {
    && 0 <= k && k + |t| <= |s|
    && forall j :: 0 <= j < |t| ==> e.fold(s[k + j]) == e.fold(t[j])
  }

  lemma TestsAt(e: Engine, d: Doc, key: string, t: string)
    ensures SomeText(d, key, Containing(e, t)) <==> exists i, k :: TextAt(d, key, i) && 0 <= k && FoldedAt(e, ValuesOf(d, key)[i].s, t, k)
    ensures SomeText(d, key, Starting(e, t)) <==> exists i :: TextAt(d, key, i) && FoldedAt(e, ValuesOf(d, key)[i].s, t, 0)
    ensures SomeText(d, key, Ending(e, t))
      <==> exists i :: TextAt(d, key, i) && FoldedAt(e, ValuesOf(d, key)[i].s, t, |ValuesOf(d, key)[i].s| - |t|)
  {
    hide FoldedAt, Folded, Has, Ends;
    var vs := ValuesOf(d, key);
    forall i | TextAt(d, key, i)
      ensures Containing(e, t)(vs[i].s) <==> exists k :: 0 <= k && FoldedAt(e, vs[i].s, t, k)
      ensures Starting(e, t)(vs[i].s) <==> FoldedAt(e, vs[i].s, t, 0)
      ensures Ending(e, t)(vs[i].s) <==> FoldedAt(e, vs[i].s, t, |vs[i].s| - |t|)
    {
      TestAt(e, vs[i].s, t);
    }
  }

  lemma TestAt(e: Engine, s: string, t: string)
    ensures Has(Folded(s, e.fold), Folded(t, e.fold)) <==> exists k :: 0 <= k && FoldedAt(e, s, t, k)
    ensures Folded(t, e.fold) <= Folded(s, e.fold) <==> FoldedAt(e, s, t, 0)
    ensures Ends(Folded(s, e.fold), Folded(t, e.fold)) <==> FoldedAt(e, s, t, |s| - |t|)
  {
    var u, v := Folded(s, e.fold), Folded(t, e.fold);
    forall k: nat | k <= |s| ensures v <= u[k..] <==> FoldedAt(e, s, t, k) {
      assert forall j :: 0 <= j < |s| - k ==> u[k..][j] == e.fold(s[k + j]);
    }
    assert u[0..] == u;
  }

  // ------------------------------------------------- what is refused

  /** A filter is refused for a missing key or an unknown operator, and otherwise exactly when its
      value does not suit the operator: a comparison for equality needs a single value, one of
      order any value, membership a member, and a search in texts a non-empty text. */
  lemma Refused(p: Python, f: Filter)
    ensures Translate(p, f).Unsupported? <==>
      || f.key == ""
      || match f.op
         case Unknown => true
         case Equal | NotEqual => !f.value.One?
         case Compare(_) => f.value.NoValue?
         case OnText(op) => match op
           case Empty | NotEmpty => false
           case In | NotIn => Members(p, f.value) == []
           case _ => !f.value.One? || StrOf(p, f.value.v) == ""
  {
    hide Strip, Members, Normalised, MembersClause, ContainsClause;
  }
}
