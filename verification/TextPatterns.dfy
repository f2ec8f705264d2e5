/** Wildcard patterns with backslash escapes: Elasticsearch `wildcard` and SQL `LIKE`. */
module TextPatterns {

  type Fold = char -> char

  /** The two wildcards of a pattern language: any run of characters, any one character. */
  datatype Syntax = Syntax(many: char, one: char)

  const ES := Syntax('*', '?')
  const LIKE := Syntax('%', '_')

  datatype Piece = Many | One | Literal(c: char)

  predicate Distinct(x: Syntax) {
    x.many != x.one && x.many != '\\' && x.one != '\\'
  }

  /** A backslash makes the next character literal; a last one stands for itself. */
  function Pieces(x: Syntax, p: string): seq<Piece> {
    if p == "" then []
    else if p[0] == '\\' && |p| > 1 then [Literal(p[1])] + Pieces(x, p[2..])
    else if p[0] == x.many then [Many] + Pieces(x, p[1..])
    else if p[0] == x.one then [One] + Pieces(x, p[1..])
    else [Literal(p[0])] + Pieces(x, p[1..])
  }

  /** Whether the whole text matches; characters are compared after folding. */
  ghost predicate Matches(ts: seq<Piece>, s: string, fold: Fold)
    decreases |ts|
  {
    if ts == [] then s == ""
    else match ts[0]
      case Many => exists k :: 0 <= k <= |s| && Matches(ts[1..], s[k..], fold)
      case One => s != "" && Matches(ts[1..], s[1..], fold)
      case Literal(c) => s != "" && fold(s[0]) == fold(c) && Matches(ts[1..], s[1..], fold)
  }

  ghost predicate Like(x: Syntax, pattern: string, s: string, fold: Fold) {
    Matches(Pieces(x, pattern), s, fold)
  }

  // ------------------------------------------------- plain text

  /** A text with every character folded: `str.lower`. */
  function Folded(s: string, fold: Fold): (r: string)
    ensures |r| == |s| && forall i :: 0 <= i < |s| ==> r[i] == fold(s[i])
  {
    seq(|s|, i requires 0 <= i < |s| => fold(s[i]))
  }

  ghost predicate Idempotent(fold: Fold) {
    forall c: char :: fold(fold(c)) == fold(c)
  }

  /** `s.find(t) >= 0`. */
  predicate Has(s: string, t: string) {
    exists i :: 0 <= i <= |s| && t <= s[i..]
  }

  /** `s.endswith(t)`. */
  predicate Ends(s: string, t: string) {
    |t| <= |s| && s[|s| - |t|..] == t
  }

  // ------------------------------------------------- escaping

  /** `s.replace(c, put)` for a single character. */
  function Replace(s: string, c: char, put: string): string {
    if s == "" then "" else (if s[0] == c then put else [s[0]]) + Replace(s[1..], c, put)
  }

  /** The three replacements in the order the code makes them: the backslash first. */
  function Escape(x: Syntax, s: string): string {
    Replace(Replace(Replace(s, '\\', "\\\\"), x.many, ['\\', x.many]), x.one, ['\\', x.one])
  }

  /** Every special character escaped where it stands. */
  function EscapeEach(x: Syntax, s: string): string {
    if s == "" then ""
    else (if s[0] == '\\' || s[0] == x.many || s[0] == x.one then ['\\', s[0]] else [s[0]]) + EscapeEach(x, s[1..])
  }

  lemma {:induction false} ReplaceAppend(a: string, b: string, c: char, put: string)
    ensures Replace(a + b, c, put) == Replace(a, c, put) + Replace(b, c, put)
    decreases |a|
  {
    if a == "" {
      assert a + b == b;
    } else {
      assert (a + b)[1..] == a[1..] + b;
      ReplaceAppend(a[1..], b, c, put);
    }
  }

  lemma ReplaceTwo(d: char, e: char, c: char, put: string)
    ensures Replace([d, e], c, put) == (if d == c then put else [d]) + (if e == c then put else [e])
  {
    assert [d, e] == [d] + [e];
    ReplaceAppend([d], [e], c, put);
  }

  /** One after the other, the replacements do not touch each other's backslashes. */
  lemma {:induction false} EscapeIsEach(x: Syntax, s: string)
    requires Distinct(x)
    ensures Escape(x, s) == EscapeEach(x, s)
    decreases |s|
  {
    if s != "" {
      EscapeIsEach(x, s[1..]);
      EscapeFirst(x, s[0], s[1..]);
      assert s == [s[0]] + s[1..];
    }
  }

  lemma EscapeFirst(x: Syntax, c: char, s: string)
    requires Distinct(x)
    ensures Escape(x, [c] + s)
            == (if c == '\\' || c == x.many || c == x.one then ['\\', c] else [c]) + Escape(x, s)
  {
    var m, o := ['\\', x.many], ['\\', x.one];
    ReplaceAppend([c], s, '\\', "\\\\");
    var a := Replace([c], '\\', "\\\\");
    ReplaceAppend(a, Replace(s, '\\', "\\\\"), x.many, m);
    ReplaceTwo('\\', '\\', x.many, m);
    var b := Replace(a, x.many, m);
    ReplaceAppend(b, Replace(Replace(s, '\\', "\\\\"), x.many, m), x.one, o);
    ReplaceTwo('\\', '\\', x.one, o);
    ReplaceTwo('\\', x.many, x.one, o);
  }

  function Literals(s: string): (ts: seq<Piece>)
    ensures |ts| == |s| && forall i :: 0 <= i < |s| ==> ts[i] == Literal(s[i])
  {
    seq(|s|, i requires 0 <= i < |s| => Literal(s[i]))
  }

  /** Escaped text reads back as itself, in front of any pattern. */
  lemma {:induction false} EscapedReads(x: Syntax, s: string, rest: string)
    requires Distinct(x)
    ensures Pieces(x, Escape(x, s) + rest) == Literals(s) + Pieces(x, rest)
    decreases |s|
  {
    EscapeIsEach(x, s);
    if s == "" {
      assert EscapeEach(x, s) + rest == rest;
    } else {
      EscapeIsEach(x, s[1..]);
      EscapedReads(x, s[1..], rest);
      var head := if s[0] == '\\' || s[0] == x.many || s[0] == x.one then ['\\', s[0]] else [s[0]];
      var p := EscapeEach(x, s) + rest;
      assert p == head + (EscapeEach(x, s[1..]) + rest);
      assert p[|head|..] == EscapeEach(x, s[1..]) + rest;
      assert Pieces(x, p) == [Literal(s[0])] + Pieces(x, p[|head|..]);
      assert Literals(s) == [Literal(s[0])] + Literals(s[1..]);
    }
  }

  // ------------------------------------------------- what the patterns mean

  /** Literals match exactly a folded prefix. */
  lemma {:induction false} LiteralsMatch(t: string, rest: seq<Piece>, s: string, fold: Fold)
    ensures Matches(Literals(t) + rest, s, fold)
            <==> Folded(t, fold) <= Folded(s, fold) && Matches(rest, s[|t|..], fold)
    decreases |t|
  {
    var ts := Literals(t) + rest;
    if t == "" {
      assert ts == rest;
    } else {
      assert ts[1..] == Literals(t[1..]) + rest && ts[0] == Literal(t[0]);
      if s != "" {
        LiteralsMatch(t[1..], rest, s[1..], fold);
        if |t| <= |s| { assert s[1..][|t| - 1..] == s[|t|..]; }
      }
    }
  }

  lemma ManyMatchesAll(s: string, fold: Fold)
    ensures Matches([Many], s, fold)
  {
    assert [Many][1..] == [];
    assert Matches([Many][1..], s[|s|..], fold);
  }

  /** Escaped text with the wildcard behind it: a prefix. */
  lemma PrefixPattern(x: Syntax, t: string, s: string, fold: Fold)
    requires Distinct(x)
    ensures Like(x, Escape(x, t) + [x.many], s, fold) <==> Folded(t, fold) <= Folded(s, fold)
  {
    EscapedReads(x, t, [x.many]);
    assert [x.many][1..] == "";
    assert Pieces(x, [x.many]) == [Many];
    LiteralsMatch(t, [Many], s, fold);
    if |t| <= |s| { ManyMatchesAll(s[|t|..], fold); }
  }

  /** The wildcard in front of escaped text: a suffix. */
  lemma SuffixPattern(x: Syntax, t: string, s: string, fold: Fold)
    requires Distinct(x)
    ensures Like(x, [x.many] + Escape(x, t), s, fold) <==> Ends(Folded(s, fold), Folded(t, fold))
  {
    EscapedReads(x, t, "");
    assert Escape(x, t) + "" == Escape(x, t) && Literals(t) + [] == Literals(t);
    forall k | 0 <= k <= |s|
      ensures Matches(Literals(t), s[k..], fold) <==> k == |s| - |t| && Folded(s, fold)[k..] == Folded(t, fold)
    {
      LiteralsMatch(t, [], s[k..], fold);
      if |t| <= |s[k..]| && s[k..][|t|..] == "" { assert k == |s| - |t|; }
    }
    if Ends(Folded(s, fold), Folded(t, fold)) {
      assert Matches(Literals(t), s[|s| - |t|..], fold);
    }
  }

  /** Escaped text between two wildcards: contained anywhere. */
  lemma ContainsPattern(x: Syntax, t: string, s: string, fold: Fold)
    requires Distinct(x)
    ensures Like(x, [x.many] + Escape(x, t) + [x.many], s, fold) <==> Has(Folded(s, fold), Folded(t, fold))
  {
    var p := Escape(x, t) + [x.many];
    assert [x.many] + Escape(x, t) + [x.many] == [x.many] + p;
    forall k | 0 <= k <= |s|
      ensures Matches(Pieces(x, p), s[k..], fold) <==> Folded(t, fold) <= Folded(s, fold)[k..]
    {
      PrefixPattern(x, t, s[k..], fold);
    }
  }
}
