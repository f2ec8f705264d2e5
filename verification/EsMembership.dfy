/** `in` on both sides: members of a list, or of a comma-separated text. */
module EsMembership {
  import opened TextPatterns
  import opened MetaDocs
  import opened EsQuery
  import opened EsFilter
  import opened EsAgreement
  import M = MetaFilter

  /** Some member equals the stored text, ignoring case. */
  function Member(e: Engine, ms: seq<Scalar>): string -> bool {
    s => exists i :: 0 <= i < |ms| && ms[i].Str? && Folded(s, e.fold) == Folded(ms[i].s, e.fold)
  }

  /** Some member, once folded and stripped as the query does, equals the stored text. */
  function Stripped(e: Engine, ms: seq<Scalar>): string -> bool {
    s => exists i :: 0 <= i < |ms| && ms[i].Str? && Folded(s, e.fold) == Strip(Folded(ms[i].s, e.fold))
  }

  lemma MemberTerm(e: Engine, key: string, m: Scalar, d: Doc)
    requires StringData(d, key)
    ensures Meaning(e, TermFor(key, m), d) <==> m.Str? && SomeText(d, key, s => Folded(s, e.fold) == Folded(m.s, e.fold))
  {
  }

  lemma NumbersMean(e: Engine, key: string, ms: seq<Scalar>, d: Doc)
    requires StringData(d, key) && forall i :: 0 <= i < |ms| ==> !ms[i].Str?
    ensures !Meaning(e, MembersClause(key, ms), d) && !SomeText(d, key, Member(e, ms))
  {
  }

  /** A list of members selects the documents with a member among their values. */
  lemma MembersMean(e: Engine, key: string, ms: seq<Scalar>, d: Doc)
    requires StringData(d, key)
    ensures Meaning(e, MembersClause(key, ms), d) <==> SomeText(d, key, Member(e, ms))
  {
    if forall i :: 0 <= i < |ms| ==> !ms[i].Str? {
      NumbersMean(e, key, ms, d);
    } else {
      forall i | 0 <= i < |ms|
        ensures Meaning(e, TermFor(key, ms[i]), d) <==> ms[i].Str? && SomeText(d, key, s => Folded(s, e.fold) == Folded(ms[i].s, e.fold))
      {
        MemberTerm(e, key, ms[i], d);
      }
      TermsMean(e, key, ms, d);
    }
  }

  lemma TermsMean(e: Engine, key: string, ms: seq<Scalar>, d: Doc)
    requires ms != [] && forall i :: 0 <= i < |ms| ==>
      (Meaning(e, TermFor(key, ms[i]), d) <==> ms[i].Str? && SomeText(d, key, s => Folded(s, e.fold) == Folded(ms[i].s, e.fold)))
    ensures Meaning(e, AnyOf(TermsFor(key, ms)), d) <==> SomeText(d, key, Member(e, ms))
  {
    hide Folded, TermFor;
    var any := AnyOf(TermsFor(key, ms));
    assert Meaning(e, any, d) <==> exists i :: 0 <= i < |any.should| && Meaning(e, any.should[i], d);
    hide Meaning;
  }

  // ------------------------------------------------- a list of members

  /** No member has spaces around it, which only the query strips. */
  ghost predicate Trimmed(e: Engine, ms: seq<Scalar>) {
    forall i :: 0 <= i < |ms| && ms[i].Str? ==> Strip(Folded(ms[i].s, e.fold)) == Folded(ms[i].s, e.fold)
  }

  lemma MemberTest(x: Texts, e: Engine, key: string, ms: seq<Scalar>, s: string)
    requires x.fold == e.fold
    ensures M.Test(x, M.Filter(M.In, key, Several(ms)), s) <==> Member(e, ms)(s)
  {
    var low := M.Lower(x, Several(ms)).vs;
    assert forall i :: 0 <= i < |ms| ==> low[i] == if ms[i].Str? then Str(Folded(ms[i].s, e.fold)) else ms[i];
    hide Folded;
    if Member(e, ms)(s) {
      var i :| 0 <= i < |ms| && ms[i].Str? && Folded(s, e.fold) == Folded(ms[i].s, e.fold);
      assert low[i] == Str(Folded(s, e.fold));
    }
  }

  /** Stripping takes nothing but the ends off, so what was folded stays folded. */
  lemma StripFolded(s: string, fold: Fold)
    requires Idempotent(fold)
    ensures Folded(Strip(Folded(s, fold)), fold) == Strip(Folded(s, fold))
  {
    var t := Folded(s, fold);
    var i := StripLeftInside(t);
    var j := StripRightInside(StripLeft(t));
    assert forall k :: 0 <= k < |t| ==> fold(t[k]) == t[k];
  }

  lemma NormalMember(p: Python, e: Engine, ms: seq<Scalar>, s: string)
    requires e.fold == p.fold && Idempotent(p.fold)
    ensures Member(e, Normalised(p, ms))(s) <==> Stripped(e, ms)(s)
  {
    forall i | 0 <= i < |ms| && ms[i].Str?
      ensures Folded(Normalised(p, ms)[i].s, e.fold) == Strip(Folded(ms[i].s, e.fold))
    {
      StripFolded(ms[i].s, p.fold);
    }
    hide Strip, Folded;
    if Stripped(e, ms)(s) {
      var i :| 0 <= i < |ms| && ms[i].Str? && Folded(s, e.fold) == Strip(Folded(ms[i].s, e.fold));
      assert Normalised(p, ms)[i].Str?;
    }
  }

  lemma ListTests(p: Python, x: Texts, e: Engine, key: string, ms: seq<Scalar>)
    requires Aligned(p, x, e)
    ensures forall s :: M.Test(x, M.Filter(M.In, key, Several(ms)), s) == Member(e, ms)(s)
    ensures forall s :: Member(e, Normalised(p, ms))(s) == Stripped(e, ms)(s)
    ensures Trimmed(e, ms) ==> forall s :: Member(e, ms)(s) == Stripped(e, ms)(s)
  {
    forall s ensures M.Test(x, M.Filter(M.In, key, Several(ms)), s) == Member(e, ms)(s) { MemberTest(x, e, key, ms, s); }
    forall s ensures Member(e, Normalised(p, ms))(s) == Stripped(e, ms)(s) { NormalMember(p, e, ms, s); }
  }

  /** For one document, `in` with a list agrees exactly when it has a value that is a member as
      written if and only if it has one that is a member once stripped; so always when no
      member has spaces around it. */
  lemma InListAgrees(p: Python, x: Texts, e: Engine, key: string, ms: seq<Scalar>, d: Doc)
    requires Aligned(p, x, e) && key != "" && ms != [] && StringData(d, key)
    ensures Agree(p, x, e, M.Filter(M.In, key, Several(ms)), d)
      <==> (SomeText(d, key, Member(e, ms)) <==> SomeText(d, key, Stripped(e, ms)))
    ensures Trimmed(e, ms) ==> Agree(p, x, e, M.Filter(M.In, key, Several(ms)), d)
  {
    hide M.Test, Member, Stripped, Trimmed, Folded, SomeText, M.Holds, Meaning, Accepts, MembersClause, Normalised, StringData;
    var f := M.Filter(M.In, key, Several(ms));
    ListTests(p, x, e, key, ms);
    HoldsIsSomeText(x, f, d, Member(e, ms));
    MembersMean(e, key, Normalised(p, ms), d);
    SameTests(d, key, Member(e, Normalised(p, ms)), Stripped(e, ms));
    if Trimmed(e, ms) { SameTests(d, key, Member(e, ms), Stripped(e, ms)); }
    AcceptsOne(e, MembersClause(key, Normalised(p, ms)), d);
    assert CsvOrList(p, Several(ms)) == Ok(Normalised(p, ms));
  }

  /** A document whose only value is the text. */
  function Single(key: string, t: string): Doc {
    Doc("", map[key := [Str(t)]])
  }

  lemma SingleText(key: string, t: string, pass: string -> bool)
    ensures StringData(Single(key, t), key) && (SomeText(Single(key, t), key, pass) <==> pass(t))
  {
    assert ValuesOf(Single(key, t), key)[0] == Str(t);
  }

  lemma {:induction false} StripLeftDone(s: string)
    ensures StripLeft(s) == "" || !Space(StripLeft(s)[0])
    decreases |s|
  {
    if s != "" && Space(s[0]) { StripLeftDone(s[1..]); }
  }

  lemma {:induction false} StripRightDone(s: string)
    ensures StripRight(s) == "" || !Space(StripRight(s)[|StripRight(s)| - 1])
    ensures s != "" && !Space(s[0]) ==> StripRight(s) != "" && StripRight(s)[0] == s[0]
    decreases |s|
  {
    if s != "" && Space(s[|s| - 1]) { StripRightDone(s[..|s| - 1]); }
  }

  /** Stripping twice is stripping once. */
  lemma StripTwice(s: string)
    ensures Strip(Strip(s)) == Strip(s)
  {
    StripLeftDone(s);
    StripRightDone(StripLeft(s));
    var t := Strip(s);
    assert StripLeft(t) == t;
    assert StripRight(t) == t;
  }

  /** `in` with a list agrees on all string data exactly when no member has spaces around it. */
  lemma InListAgreesAlways(p: Python, x: Texts, e: Engine, key: string, ms: seq<Scalar>)
    requires Aligned(p, x, e) && key != "" && ms != []
    ensures (forall d :: StringData(d, key) ==> Agree(p, x, e, M.Filter(M.In, key, Several(ms)), d)) <==> Trimmed(e, ms)
  {
    hide Agree, StringData, Member, Stripped, SomeText, Strip, Folded, Single;
    forall d | StringData(d, key) && Trimmed(e, ms) ensures Agree(p, x, e, M.Filter(M.In, key, Several(ms)), d) {
      InListAgrees(p, x, e, key, ms, d);
    }
    if !Trimmed(e, ms) {
      var i :| 0 <= i < |ms| && ms[i].Str? && Strip(Folded(ms[i].s, e.fold)) != Folded(ms[i].s, e.fold);
      var d := Single(key, ms[i].s);
      SingleText(key, ms[i].s, Member(e, ms));
      InListAgrees(p, x, e, key, ms, d);
      SingleText(key, ms[i].s, Stripped(e, ms));
      Untrimmed(e, ms, i);
      assert !Agree(p, x, e, M.Filter(M.In, key, Several(ms)), d);
    }
  }

  /** A member with spaces around it equals itself, and nothing stripped. */
  lemma Untrimmed(e: Engine, ms: seq<Scalar>, i: nat)
    requires i < |ms| && ms[i].Str? && Strip(Folded(ms[i].s, e.fold)) != Folded(ms[i].s, e.fold)
    ensures Member(e, ms)(ms[i].s) && !Stripped(e, ms)(ms[i].s)
  {
    hide Strip, Folded;
    forall j | 0 <= j < |ms| && ms[j].Str? ensures Folded(ms[i].s, e.fold) != Strip(Folded(ms[j].s, e.fold)) {
      StripTwice(Folded(ms[j].s, e.fold));
    }
  }

  function NotMember(e: Engine, ms: seq<Scalar>): string -> bool {
    s => !Member(e, ms)(s)
  }

  /** `not in` on lists: the evaluator asks for a value that is no member, the query for a value
      at all and none that is a member once stripped. Without spaces around members the two
      part under exactly the same condition as for `not contains`: some value is a member and
      some value is not. */
  lemma NotInListAgrees(p: Python, x: Texts, e: Engine, key: string, ms: seq<Scalar>, d: Doc)
    requires Aligned(p, x, e) && key != "" && ms != [] && StringData(d, key)
    ensures Agree(p, x, e, M.Filter(M.NotIn, key, Several(ms)), d) <==>
      (SomeText(d, key, NotMember(e, ms)) <==> SomeValue(d, key) && !SomeText(d, key, Stripped(e, ms)))
    ensures Trimmed(e, ms) ==>
      (Agree(p, x, e, M.Filter(M.NotIn, key, Several(ms)), d)
       <==> !(SomeText(d, key, Member(e, ms)) && SomeText(d, key, NotMember(e, ms))))
  {
    hide M.Test, Member, NotMember, Stripped, Trimmed, Folded, SomeText, M.Holds, Meaning, Accepts, MembersClause, Normalised, StringData, SomeValue;
    var f := M.Filter(M.NotIn, key, Several(ms));
    ListTests(p, x, e, key, ms);
    NotMemberTests(x, e, key, ms);
    HoldsIsSomeText(x, f, d, NotMember(e, ms));
    MembersMean(e, key, Normalised(p, ms), d);
    SameTests(d, key, Member(e, Normalised(p, ms)), Stripped(e, ms));
    if Trimmed(e, ms) { SameTests(d, key, Member(e, ms), Stripped(e, ms)); }
    ExistsMeans(e, key, d);
    SomeOrNot(e, ms, d, key);
    AcceptsBut(e, Exists(key), MembersClause(key, Normalised(p, ms)), d);
    assert CsvOrList(p, Several(ms)) == Ok(Normalised(p, ms));
  }

  lemma NotMemberTests(x: Texts, e: Engine, key: string, ms: seq<Scalar>)
    requires forall s :: M.Test(x, M.Filter(M.In, key, Several(ms)), s) == Member(e, ms)(s)
    ensures forall s :: M.Test(x, M.Filter(M.NotIn, key, Several(ms)), s) == NotMember(e, ms)(s)
  {
    hide Member;
    forall s ensures M.Test(x, M.Filter(M.NotIn, key, Several(ms)), s) == !M.Test(x, M.Filter(M.In, key, Several(ms)), s) { }
  }

  lemma SomeOrNot(e: Engine, ms: seq<Scalar>, d: Doc, key: string)
    requires StringData(d, key)
    ensures SomeValue(d, key) <==> SomeText(d, key, Member(e, ms)) || SomeText(d, key, NotMember(e, ms))
  {
    hide Member;
    var vs := ValuesOf(d, key);
    if SomeValue(d, key) {
      var i :| 0 <= i < |vs| && vs[i] != Null;
      assert vs[i].Str? && (Member(e, ms)(vs[i].s) || NotMember(e, ms)(vs[i].s));
    }
  }

  // ------------------------------------------------- a comma-separated text

  lemma HasSlice(s: string, t: string, i: nat, j: nat)
    requires i <= j <= |s| && t == s[i..j]
    ensures Has(s, t)
  {
    assert t <= s[i..];
  }

  lemma HasIsSlice(s: string, t: string) returns (i: nat)
    requires Has(s, t)
    ensures i + |t| <= |s| && t == s[i..i + |t|]
  {
    i :| 0 <= i <= |s| && t <= s[i..];
  }

  lemma SliceOfSlice(a: string, i: nat, m: nat, j: nat, n: nat)
    requires i + m <= |a| && j + n <= m
    ensures a[i..i + m][j..j + n] == a[i + j..i + j + n]
  {
    var left, right := a[i..i + m][j..j + n], a[i + j..i + j + n];
    forall k | 0 <= k < n ensures left[k] == right[k] { }
  }

  lemma HasTransitive(a: string, b: string, c: string)
    requires Has(a, b) && Has(b, c)
    ensures Has(a, c)
  {
    var i := HasIsSlice(a, b);
    var j := HasIsSlice(b, c);
    SliceOfSlice(a, i, |b|, j, |c|);
    HasSlice(a, c, i + j, i + j + |c|);
  }

  lemma FoldedHas(s: string, t: string, fold: Fold)
    requires Has(s, t)
    ensures Has(Folded(s, fold), Folded(t, fold))
  {
    var i := HasIsSlice(s, t);
    HasSlice(Folded(s, fold), Folded(t, fold), i, i + |t|);
  }

  lemma {:induction false} StripLeftInside(s: string) returns (i: nat)
    ensures i <= |s| && StripLeft(s) == s[i..]
    decreases |s|
  {
    i := 0;
    if s != "" && Space(s[0]) {
      var j := StripLeftInside(s[1..]);
      i := j + 1;
    }
  }

  lemma {:induction false} StripRightInside(s: string) returns (i: nat)
    ensures i <= |s| && StripRight(s) == s[..i]
    decreases |s|
  {
    i := |s|;
    if s != "" && Space(s[|s| - 1]) {
      i := StripRightInside(s[..|s| - 1]);
    }
  }

  lemma StripInside(s: string)
    ensures Has(s, Strip(s))
  {
    var i := StripLeftInside(s);
    var j := StripRightInside(StripLeft(s));
    HasSlice(s, Strip(s), i, i + j);
  }

  /** Every part of a split text lies inside it. */
  lemma {:induction false} PartsInside(s: string, part: string, k: nat)
    requires k < |SplitParts(s, part)|
    ensures Has(part + s, SplitParts(s, part)[k])
    decreases |s|
  {
    hide Has, Strip;
    KeptInside(part, s);
    if s != "" {
      if s[0] == ',' {
        if k >= |Kept(part)| {
          PartsInside(s[1..], "", k - |Kept(part)|);
          assert "" + s[1..] == s[1..];
          HasSlice(part + s, s[1..], |part| + 1, |part + s|);
          HasTransitive(part + s, s[1..], SplitParts(s, part)[k]);
        }
      } else {
        assert part + [s[0]] + s[1..] == part + s;
        PartsInside(s[1..], part + [s[0]], k);
      }
    }
  }

  lemma KeptInside(part: string, s: string)
    ensures forall k :: 0 <= k < |Kept(part)| ==> Has(part + s, Kept(part)[k])
  {
    StripInside(part);
    HasSlice(part + s, part, 0, |part|);
    HasTransitive(part + s, part, Strip(part));
  }

  function CsvMembers(p: Python, t: string): seq<Scalar> {
    Normalised(p, Strings(SplitParts(t, "")))
  }

  /** Text inside the filter's text, the evaluator's reading of `in`. */
  function Inside(e: Engine, t: string): string -> bool {
    s => Has(Folded(t, e.fold), Folded(s, e.fold))
  }

  lemma MembersInside(p: Python, e: Engine, t: string, s: string)
    requires e.fold == p.fold && Idempotent(p.fold) && Member(e, CsvMembers(p, t))(s)
    ensures Inside(e, t)(s)
  {
    var ms := CsvMembers(p, t);
    var i :| 0 <= i < |ms| && ms[i].Str? && Folded(s, e.fold) == Folded(ms[i].s, e.fold);
    var part := SplitParts(t, "")[i];
    PartsInside(t, "", i);
    assert "" + t == t;
    FoldedHas(t, part, e.fold);
    StripInside(Folded(part, e.fold));
    FoldedHas(Folded(part, e.fold), ms[i].s, e.fold);
    M.FoldedTwice(part, e.fold);
    HasTransitive(Folded(t, e.fold), Folded(part, e.fold), Folded(s, e.fold));
  }

  /** `in` with a text: the query compares whole members, the evaluator looks anywhere in the
      text. So the query selects no more, and the two agree exactly when some value is a whole
      member or none lies inside the text. */
  lemma InTextAgrees(p: Python, x: Texts, e: Engine, key: string, t: string, d: Doc)
    requires Aligned(p, x, e) && key != "" && StringData(d, key)
    requires !p.literal(t).Items? && SplitParts(t, "") != []
    ensures var f := TextFilter(M.In, key, t);
      && (Translate(p, Pushed(f)).Ok? && (Accepts(e, Translate(p, Pushed(f)).value, d) ==> M.Holds(x, f, d)))
      && (Agree(p, x, e, f, d) <==> SomeText(d, key, Member(e, CsvMembers(p, t))) || !SomeText(d, key, Inside(e, t)))
  {
    hide M.Test, Member, Inside, Folded, SomeText, M.Holds, Meaning, Accepts, MembersClause, Normalised, StringData, CsvMembers,
      SplitParts, CsvOrList;
    var f, ms := TextFilter(M.In, key, t), CsvMembers(p, t);
    InsideTest(x, e, key, t);
    forall s | Member(e, ms)(s) ensures Inside(e, t)(s) { MembersInside(p, e, t, s); }
    Implied(d, key, Member(e, ms), Inside(e, t));
    HoldsIsSomeText(x, f, d, Inside(e, t));
    MembersMean(e, key, ms, d);
    AcceptsOne(e, MembersClause(key, ms), d);
    CsvText(p, t);
  }

  lemma CsvText(p: Python, t: string)
    requires !p.literal(t).Items? && SplitParts(t, "") != []
    ensures CsvOrList(p, Value.One(Str(t))) == Ok(CsvMembers(p, t))
  {
    hide SplitParts, Normalised;
  }

  lemma InsideTest(x: Texts, e: Engine, key: string, t: string)
    requires x.fold == e.fold
    ensures forall s :: Inside(e, t)(s) == M.Test(x, TextFilter(M.In, key, t), s)
  {
    hide Has, Folded;
  }

  lemma Implied(d: Doc, key: string, a: string -> bool, b: string -> bool)
    requires forall s :: a(s) ==> b(s)
    ensures SomeText(d, key, a) ==> SomeText(d, key, b)
  {
  }

  /** A value inside the text that is no member of it: "al" in "alice". The evaluator selects
      the document, the query does not. */
  lemma InTextDiffers(p: Python, x: Texts, e: Engine)
    requires Aligned(p, x, e) && p.literal("alice").NotALiteral? && forall c :: c in "alice" ==> e.fold(c) == c
    ensures var d, f := Single("tag", "al"), TextFilter(M.In, "tag", "alice");
      && Translate(p, Pushed(f)).Ok? && !Accepts(e, Translate(p, Pushed(f)).value, d) && M.Holds(x, f, d)
  {
    hide Accepts, M.Holds, SomeText, Single, CsvMembers, SplitParts, Folded, Has;
    AliceIsOneMember(p, e);
    SingleText("tag", "al", Member(e, CsvMembers(p, "alice")));
    SingleText("tag", "al", Inside(e, "alice"));
    AlInside(e);
    InTextAgrees(p, x, e, "tag", "alice", Single("tag", "al"));
    HoldsInside(x, e, Single("tag", "al"));
  }

  lemma HoldsInside(x: Texts, e: Engine, d: Doc)
    requires x.fold == e.fold && StringData(d, "tag") && SomeText(d, "tag", Inside(e, "alice"))
    ensures M.Holds(x, TextFilter(M.In, "tag", "alice"), d)
  {
    hide Inside, StringData, SomeText, M.Holds, M.Test;
    InsideTest(x, e, "tag", "alice");
    HoldsIsSomeText(x, TextFilter(M.In, "tag", "alice"), d, Inside(e, "alice"));
  }

  lemma AlInside(e: Engine)
    ensures Inside(e, "alice")("al")
  {
    HasSlice("alice", "al", 0, 2);
    FoldedHas("alice", "al", e.fold);
  }

  lemma AliceIsOneMember(p: Python, e: Engine)
    requires e.fold == p.fold && Idempotent(p.fold) && forall c :: c in "alice" ==> e.fold(c) == c
    ensures SplitParts("alice", "") != [] && !Member(e, CsvMembers(p, "alice"))("al")
  {
    PlainPart("alice", "");
    assert Folded("alice", e.fold) == "alice";
    assert StripLeft("alice") == "alice" && StripRight("alice") == "alice";
    assert Kept("alice") == ["alice"] && "" + "alice" == "alice";
    assert SplitParts("alice", "") == ["alice"];
    assert Normal(p, Str("alice")) == Str("alice");
    assert CsvMembers(p, "alice") == [Str("alice")];
    assert |Folded("al", e.fold)| == 2;
  }

  lemma {:induction false} PlainPart(s: string, part: string)
    requires ',' !in s
    ensures SplitParts(s, part) == Kept(part + s)
    decreases |s|
  {
    hide Kept;
    if s == "" {
      assert part + s == part;
    } else {
      assert part + s == (part + [s[0]]) + s[1..] && s[0] in s;
      PlainPart(s[1..], part + [s[0]]);
    }
  }
}
