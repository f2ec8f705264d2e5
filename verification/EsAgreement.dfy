/** Where the pushed-down query and the in-memory evaluator select the same documents. */
module EsAgreement {
  import opened TextPatterns
  import opened MetaDocs
  import opened EsQuery
  import opened EsFilter
  import M = MetaFilter

  /** The in-memory evaluator and the engine fold texts as Python does. An engine that folds
      ASCII letters alone is aligned on texts whose other characters Python leaves as well. */
  ghost predicate Aligned(p: Python, x: Texts, e: Engine) {
    x.show == p.show && x.fold == p.fold == e.fold && Idempotent(p.fold)
  }

  /** String data: every value of the key is a string or null. */
  ghost predicate StringData(d: Doc, key: string) {
    forall i :: 0 <= i < |ValuesOf(d, key)| ==> ValuesOf(d, key)[i].Str? || ValuesOf(d, key)[i].Null?
  }

  /** Some string value of the key passes. */
  ghost predicate SomeText(d: Doc, key: string, pass: string -> bool) {
    exists i :: 0 <= i < |ValuesOf(d, key)| && ValuesOf(d, key)[i].Str? && pass(ValuesOf(d, key)[i].s)
  }

  /** Tests of a stored text against t, ignoring case. */
  function Containing(e: Engine, t: string): string -> bool {
    s => Has(Folded(s, e.fold), Folded(t, e.fold))
  }

  function Lacking(e: Engine, t: string): string -> bool {
    s => !Has(Folded(s, e.fold), Folded(t, e.fold))
  }

  function Starting(e: Engine, t: string): string -> bool {
    s => Folded(t, e.fold) <= Folded(s, e.fold)
  }

  function Ending(e: Engine, t: string): string -> bool {
    s => Ends(Folded(s, e.fold), Folded(t, e.fold))
  }

  lemma SameTests(d: Doc, key: string, a: string -> bool, b: string -> bool)
    requires forall s :: a(s) == b(s)
    ensures SomeText(d, key, a) == SomeText(d, key, b)
  {
  }

  /** In memory: a filter holds when some string value passes its test. */
  lemma HoldsIsSomeText(x: Texts, f: M.Filter, d: Doc, pass: string -> bool)
    requires StringData(d, f.key) && forall s :: pass(s) == M.Test(x, f, s)
    ensures M.Holds(x, f, d) <==> SomeText(d, f.key, pass)
  {
    hide M.Test;
    var vs := ValuesOf(d, f.key);
    if M.Holds(x, f, d) {
      var v :| HasValue(x, d, f.key, v) && M.Test(x, f, v);
      var i :| 0 <= i < |vs| && vs[i] != Null && Render(x, vs[i]) == v;
      assert pass(vs[i].s);
    }
    if SomeText(d, f.key, pass) {
      var i :| 0 <= i < |vs| && vs[i].Str? && pass(vs[i].s);
      assert HasValue(x, d, f.key, vs[i].s);
    }
  }

  /** A filter whose value is a non-empty text. */
  function TextFilter(op: M.Op, key: string, t: string): M.Filter {
    M.Filter(op, key, Value.One(Str(t)))
  }

  function Pushed(f: M.Filter): Filter {
    Filter(OnText(f.op), f.key, f.value)
  }

  /** Both sides select the document or neither does. */
  ghost predicate Agree(p: Python, x: Texts, e: Engine, f: M.Filter, d: Doc) {
    Translate(p, Pushed(f)).Ok? && (Accepts(e, Translate(p, Pushed(f)).value, d) <==> M.Holds(x, f, d))
  }

  lemma ContainsMeans(e: Engine, key: string, t: string, d: Doc)
    ensures Meaning(e, ContainsClause(key, t), d) <==> SomeText(d, key, Containing(e, t))
  {
    hide Like, Escape, Has, Folded;
    var vs := ValuesOf(d, key);
    var pattern := "*" + Escape(ES, t) + "*";
    assert ['*'] == "*";
    forall i | 0 <= i < |vs| && vs[i].Str? ensures Like(ES, pattern, vs[i].s, e.fold) <==> Containing(e, t)(vs[i].s) {
      ContainsPattern(ES, t, vs[i].s, e.fold);
    }
  }

  lemma SuffixMeans(e: Engine, key: string, t: string, d: Doc)
    ensures Meaning(e, Wildcard(key, "*" + Escape(ES, t)), d) <==> SomeText(d, key, Ending(e, t))
  {
    hide Like, Escape, Ends, Folded;
    var vs := ValuesOf(d, key);
    var pattern := "*" + Escape(ES, t);
    assert ['*'] == "*";
    forall i | 0 <= i < |vs| && vs[i].Str? ensures Like(ES, pattern, vs[i].s, e.fold) <==> Ending(e, t)(vs[i].s) {
      SuffixPattern(ES, t, vs[i].s, e.fold);
    }
  }

  lemma PrefixMeans(e: Engine, key: string, t: string, d: Doc)
    ensures Meaning(e, Prefix(key, t), d) <==> SomeText(d, key, Starting(e, t))
  {
    hide Folded;
    var vs := ValuesOf(d, key);
    forall i | 0 <= i < |vs| && vs[i].Str?
      ensures Starting(e, t)(vs[i].s) == (Folded(t, e.fold) <= Folded(vs[i].s, e.fold)) { }
  }

  /** The in-memory tests, spelled out. */
  lemma TestMeans(p: Python, x: Texts, e: Engine, key: string, t: string)
    requires Aligned(p, x, e)
    ensures forall s :: M.Test(x, TextFilter(M.Contains, key, t), s) == Containing(e, t)(s)
    ensures forall s :: M.Test(x, TextFilter(M.NotContains, key, t), s) == Lacking(e, t)(s)
    ensures forall s :: M.Test(x, TextFilter(M.StartsWith, key, t), s) == Starting(e, t)(s)
    ensures forall s :: M.Test(x, TextFilter(M.EndsWith, key, t), s) == Ending(e, t)(s)
  {
    forall s ensures Folded(Folded(s, e.fold), e.fold) == Folded(s, e.fold) { M.FoldedTwice(s, e.fold); }
    hide Has, Ends, Folded;
  }

  lemma AcceptsOne(e: Engine, c: Clause, d: Doc)
    ensures Accepts(e, Translated([c], []), d) <==> Meaning(e, c, d)
  {
    hide Meaning;
    var one: seq<Clause> := [c];
    assert one[0] == c;
  }

  lemma AcceptsBut(e: Engine, c: Clause, n: Clause, d: Doc)
    ensures Accepts(e, Translated([c], [n]), d) <==> Meaning(e, c, d) && !Meaning(e, n, d)
  {
    hide Meaning;
    var one: seq<Clause>, no: seq<Clause> := [c], [n];
    assert one[0] == c && no[0] == n;
  }

  /** What the translator makes of a non-empty text. */
  lemma TextTranslates(p: Python, key: string, t: string)
    requires key != "" && t != ""
    ensures Translate(p, Pushed(TextFilter(M.Contains, key, t))) == Ok(Translated([ContainsClause(key, t)], []))
    ensures Translate(p, Pushed(TextFilter(M.NotContains, key, t))) == Ok(Translated([Exists(key)], [ContainsClause(key, t)]))
    ensures Translate(p, Pushed(TextFilter(M.StartsWith, key, t))) == Ok(Translated([Prefix(key, t)], []))
    ensures Translate(p, Pushed(TextFilter(M.EndsWith, key, t))) == Ok(Translated([Wildcard(key, "*" + Escape(ES, t))], []))
  {
    hide Escape;
  }

  /** `contains`, `start with` and `end with` agree on string data, single- or multi-valued,
      whatever characters the text contains. */
  lemma PositiveTextAgrees(p: Python, x: Texts, e: Engine, op: M.Op, key: string, t: string, d: Doc)
    requires Aligned(p, x, e) && key != "" && t != "" && StringData(d, key)
    requires op.Contains? || op.StartsWith? || op.EndsWith?
    ensures Agree(p, x, e, TextFilter(op, key, t), d)
  {
    hide M.Holds, M.Test, Escape, Containing, Starting, Ending, SomeText, Meaning, Accepts, Translate, ContainsClause, StringData;
    var f := TextFilter(op, key, t);
    var pass := if op.Contains? then Containing(e, t) else if op.StartsWith? then Starting(e, t) else Ending(e, t);
    TestMeans(p, x, e, key, t);
    HoldsIsSomeText(x, f, d, pass);
    ContainsMeans(e, key, t, d);
    SuffixMeans(e, key, t, d);
    PrefixMeans(e, key, t, d);
    TextTranslates(p, key, t);
    AcceptsOne(e, ContainsClause(key, t), d);
    AcceptsOne(e, Prefix(key, t), d);
    AcceptsOne(e, Wildcard(key, "*" + Escape(ES, t)), d);
  }

  /** The values of the key do not mix texts that contain t with texts that do not. */
  ghost predicate Unmixed(e: Engine, d: Doc, key: string, t: string) {
    !(SomeText(d, key, Containing(e, t)) && SomeText(d, key, Lacking(e, t)))
  }

  lemma SomeValueIsText(e: Engine, d: Doc, key: string, t: string)
    requires StringData(d, key)
    ensures SomeValue(d, key) <==> SomeText(d, key, Containing(e, t)) || SomeText(d, key, Lacking(e, t))
  {
    hide Has, Folded;
    var vs := ValuesOf(d, key);
    if SomeValue(d, key) {
      var i :| 0 <= i < |vs| && vs[i] != Null;
      assert vs[i].Str? && (Containing(e, t)(vs[i].s) || Lacking(e, t)(vs[i].s));
    }
  }

  lemma ExistsMeans(e: Engine, key: string, d: Doc)
    ensures Meaning(e, Exists(key), d) <==> SomeValue(d, key)
  {
  }

  lemma OneValueUnmixed(e: Engine, d: Doc, key: string, t: string)
    requires |ValuesOf(d, key)| <= 1
    ensures Unmixed(e, d, key, t)
  {
    hide Has, Folded;
  }

  /** `not contains` agrees exactly when the values do not mix the two kinds: always on a
      single value, not on every list. */
  lemma NotContainsAgrees(p: Python, x: Texts, e: Engine, key: string, t: string, d: Doc)
    requires Aligned(p, x, e) && key != "" && t != "" && StringData(d, key)
    ensures Agree(p, x, e, TextFilter(M.NotContains, key, t), d) <==> Unmixed(e, d, key, t)
    ensures |ValuesOf(d, key)| <= 1 ==> Agree(p, x, e, TextFilter(M.NotContains, key, t), d)
  {
    hide M.Holds, M.Test, Containing, Lacking, SomeText, Meaning, Accepts, Translate, ContainsClause, StringData, SomeValue;
    var f := TextFilter(M.NotContains, key, t);
    TestMeans(p, x, e, key, t);
    HoldsIsSomeText(x, f, d, Lacking(e, t));
    ContainsMeans(e, key, t, d);
    SomeValueIsText(e, d, key, t);
    if |ValuesOf(d, key)| <= 1 { OneValueUnmixed(e, d, key, t); }
    ExistsMeans(e, key, d);
    TextTranslates(p, key, t);
    AcceptsBut(e, Exists(key), ContainsClause(key, t), d);
  }

  /** A document with a list on which the two sides differ: one value contains the text, the
      other does not. */
  lemma NotContainsDiffers(p: Python, x: Texts, e: Engine)
    requires Aligned(p, x, e) && e.fold('a') != e.fold('b')
    ensures var d := Doc("", map["tag" := [Str("a"), Str("b")]]);
      !Agree(p, x, e, TextFilter(M.NotContains, "tag", "a"), d)
  {
    hide Agree, Containing, Lacking, SomeText, Has;
    var d := Doc("", map["tag" := [Str("a"), Str("b")]]);
    NotContainsAgrees(p, x, e, "tag", "a", d);
    OneEach(e);
    TwoTexts(d, "tag", Containing(e, "a"), Lacking(e, "a"));
  }

  lemma OneEach(e: Engine)
    requires e.fold('a') != e.fold('b')
    ensures Containing(e, "a")("a") && Lacking(e, "a")("b")
  {
    hide Has;
    assert Folded("a", e.fold) == [e.fold('a')] && Folded("b", e.fold) == [e.fold('b')];
    OneCharacter(e.fold('a'), e.fold('a'));
    OneCharacter(e.fold('b'), e.fold('a'));
  }

  lemma TwoTexts(d: Doc, key: string, a: string -> bool, b: string -> bool)
    requires ValuesOf(d, key) == [Str("a"), Str("b")] && a("a") && b("b")
    ensures SomeText(d, key, a) && SomeText(d, key, b)
  {
    assert ValuesOf(d, key)[0] == Str("a") && ValuesOf(d, key)[1] == Str("b");
  }

  lemma OneCharacter(c: char, d: char)
    ensures Has([c], [d]) <==> c == d
  {
    var s: string, t: string := [c], [d];
    assert s[0..] == s;
    if Has(s, t) {
      var i :| 0 <= i <= |s| && t <= s[i..];
      assert t[0] == s[i..][0];
    }
    if c == d { assert t <= s[0..]; }
  }

  // ------------------------------------------------- empty and not empty

  ghost predicate HasBlank(d: Doc, key: string) {
    exists i :: 0 <= i < |ValuesOf(d, key)| && ValuesOf(d, key)[i] == Str("")
  }

  ghost predicate HasNonBlank(d: Doc, key: string) {
    exists i :: 0 <= i < |ValuesOf(d, key)| && ValuesOf(d, key)[i].Str? && ValuesOf(d, key)[i].s != ""
  }

  lemma EmptyClause(e: Engine, d: Doc, key: string)
    ensures Meaning(e, AnyOf([Group([], [Exists(key)]), Term(Keyword(key), Str(""), false)]), d)
            <==> !SomeValue(d, key) || HasBlank(d, key)
  {
    ExistsMeans(e, key, d);
    var a, b := Group([], [Exists(key)]), Term(Keyword(key), Str(""), false);
    assert Meaning(e, a, d) <==> !Meaning(e, a.mustNot[0], d);
    var any := AnyOf([a, b]);
    assert any.should[0] == a && any.should[1] == b;
    assert Meaning(e, any, d) <==> Meaning(e, any.should[0], d) || Meaning(e, any.should[1], d);
  }

  lemma BlankTests(p: Python, x: Texts, e: Engine, f: M.Filter, d: Doc)
    requires StringData(d, f.key) && (f.op.Empty? || f.op.NotEmpty?)
    ensures M.Holds(x, f, d) <==> if f.op.Empty? then HasBlank(d, f.key) else HasNonBlank(d, f.key)
  {
    var pass := if f.op.Empty? then (s: string) => s == "" else (s: string) => s != "";
    forall s ensures pass(s) == M.Test(x, f, s) { }
    HoldsIsSomeText(x, f, d, pass);
  }

  /** `empty` agrees exactly on documents that have a value: without one the query matches and
      the evaluator does not. */
  lemma EmptyAgrees(p: Python, x: Texts, e: Engine, f: M.Filter, d: Doc)
    requires f.op.Empty? && f.key != "" && StringData(d, f.key)
    ensures Agree(p, x, e, f, d) <==> SomeValue(d, f.key)
  {
    BlankTests(p, x, e, f, d);
    EmptyClause(e, d, f.key);
    AcceptsOne(e, AnyOf([Group([], [Exists(f.key)]), Term(Keyword(f.key), Str(""), false)]), d);
    hide M.Holds, Accepts, Meaning;
  }

  /** `not empty` agrees exactly on documents that do not mix blank and other values. */
  lemma NotEmptyAgrees(p: Python, x: Texts, e: Engine, f: M.Filter, d: Doc)
    requires f.op.NotEmpty? && f.key != "" && StringData(d, f.key)
    ensures Agree(p, x, e, f, d) <==> !(HasBlank(d, f.key) && HasNonBlank(d, f.key))
  {
    BlankTests(p, x, e, f, d);
    ExistsMeans(e, f.key, d);
    AcceptsBut(e, Exists(f.key), Term(Keyword(f.key), Str(""), false), d);
    hide M.Holds, Accepts, Meaning, SomeValue, HasBlank, HasNonBlank;
  }

  /** A document without the key: the query for `empty` selects it, the evaluator does not. */
  lemma EmptyDiffers(p: Python, x: Texts, e: Engine)
    ensures var d, f := Doc("", map[]), M.Filter(M.Empty, "tag", NoValue);
      && Translate(p, Pushed(f)).Ok? && Accepts(e, Translate(p, Pushed(f)).value, d) && !M.Holds(x, f, d)
  {
    var d, f := Doc("", map[]), M.Filter(M.Empty, "tag", NoValue);
    assert ValuesOf(d, "tag") == [];
    EmptyAgrees(p, x, e, f, d);
    hide Accepts;
  }

  /** A list with a blank and another value: the evaluator selects it for `not empty`, the
      query does not. */
  lemma NotEmptyDiffers(p: Python, x: Texts, e: Engine)
    ensures var d, f := Doc("", map["tag" := [Str(""), Str("a")]]), M.Filter(M.NotEmpty, "tag", NoValue);
      && Translate(p, Pushed(f)).Ok? && !Accepts(e, Translate(p, Pushed(f)).value, d) && M.Holds(x, f, d)
  {
    var d, f := Doc("", map["tag" := [Str(""), Str("a")]]), M.Filter(M.NotEmpty, "tag", NoValue);
    assert ValuesOf(d, "tag")[0] == Str("") && ValuesOf(d, "tag")[1] == Str("a");
    BlankTests(p, x, e, f, d);
    NotEmptyAgrees(p, x, e, f, d);
    hide Accepts, M.Holds;
  }

  // ------------------------------------------------- whole requests

  /** Without filters the query selects its whole scope and the evaluator nothing. */
  lemma NoFilterDiffers(x: Texts, e: Engine, metas: Metas, logic: Logic, kbs: seq<string>, d: Doc, id: DocId)
    requires d.kb in kbs
    ensures Meaning(e, ToQuery([], logic, kbs), d) && !M.Selects(x, [], logic.And?, metas, id)
  {
    ScopeAndInner(e, [], logic, kbs, d);
  }

  /** Filters on which both sides agree for this document. */
  ghost predicate InFragment(e: Engine, f: M.Filter, d: Doc) {
    && f.key != "" && StringData(d, f.key)
    && match f.op
       case Contains | StartsWith | EndsWith => f.value.One? && f.value.v.Str? && f.value.v.s != ""
       case NotContains => f.value.One? && f.value.v.Str? && f.value.v.s != "" && Unmixed(e, d, f.key, f.value.v.s)
       case Empty => SomeValue(d, f.key)
       case NotEmpty => !(HasBlank(d, f.key) && HasNonBlank(d, f.key))
       case _ => false
  }

  lemma FragmentAgrees(p: Python, x: Texts, e: Engine, f: M.Filter, d: Doc)
    requires Aligned(p, x, e) && InFragment(e, f, d)
    ensures Agree(p, x, e, f, d)
  {
    hide Agree, Unmixed, SomeValue, HasBlank, HasNonBlank, StringData;
    match f.op
    case Contains | StartsWith | EndsWith => PositiveTextAgrees(p, x, e, f.op, f.key, f.value.v.s, d);
    case NotContains => NotContainsAgrees(p, x, e, f.key, f.value.v.s, d);
    case Empty => EmptyAgrees(p, x, e, f, d);
    case NotEmpty => NotEmptyAgrees(p, x, e, f, d);
    case _ =>
  }

  function PushedAll(fs: seq<M.Filter>): (r: seq<Filter>)
    ensures |r| == |fs| && forall i :: 0 <= i < |fs| ==> r[i] == Pushed(fs[i])
  {
    seq(|fs|, i requires 0 <= i < |fs| => Pushed(fs[i]))
  }

  /** The pushed-down query selects exactly the documents `meta_filter` selects from the
      flattened metadata, for either logic and any number of filters in the fragment. */
  lemma PushdownSelectsTheSame(p: Python, x: Texts, e: Engine, docs: map<DocId, Doc>, metas: Metas, filters: seq<M.Filter>,
                               ts: seq<Translated>, logic: Logic, kbs: seq<string>, id: DocId)
    requires Aligned(p, x, e) && Flat(x, docs, metas) && filters != []
    requires |ts| == |filters| && forall i :: 0 <= i < |filters| ==> Translate(p, Pushed(filters[i])) == Ok(ts[i])
    requires forall d :: d in docs ==> docs[d].kb in kbs
    requires id in docs ==> forall i :: 0 <= i < |filters| ==> InFragment(e, filters[i], docs[id])
    ensures M.Selects(x, filters, logic.And?, metas, id) <==> id in docs && Meaning(e, ToQuery(ts, logic, kbs), docs[id])
  {
    hide Translate, Meaning, M.Holds, M.HoldsIn, InFragment, Flat, ToQuery, Accepts;
    forall i | 0 <= i < |filters|
      ensures M.HoldsIn(x, filters[i], metas, id) <==> id in docs && Accepts(e, ts[i], docs[id])
    {
      M.BucketsAreDocs(x, docs, metas, filters[i], id);
      if id in docs { FragmentAgrees(p, x, e, filters[i], docs[id]); }
    }
    assert M.HoldsIn(x, filters[0], metas, id) ==> id in docs;
    if id in docs {
      QueryDenotes(e, p, PushedAll(filters), ts, logic, kbs, docs[id]);
    }
  }
}
