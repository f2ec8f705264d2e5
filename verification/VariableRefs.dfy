/** Variable references such as {{id@name}} inside texts, and renaming the ids in them. */
module VariableRefs {
  import opened Options

  predicate SpaceChar(c: char) {
    c in " \t\n\r"
  }

  predicate IdChar(c: char) {
    'a' <= c <= 'z' || 'A' <= c <= 'Z' || '0' <= c <= '9' || c == ':' || c == '_' || c == '-'
  }

  predicate AttrChar(c: char) {
    'a' <= c <= 'z' || 'A' <= c <= 'Z' || '0' <= c <= '9' || c == '_' || c == '.' || c == '-'
  }

  /** Ids and names share their letters, digits, underscores and hyphens; a colon is for ids alone,
      a dot for names alone. */
  lemma Characters(c: char)
    ensures c != ':' && c != '.' ==> (IdChar(c) <==> AttrChar(c))
    ensures IdChar(':') && !AttrChar(':') && AttrChar('.') && !IdChar('.')
    ensures IdChar('a') && IdChar('z') && IdChar('A') && IdChar('Z') && IdChar('0') && IdChar('9') && IdChar('_') && IdChar('-')
    ensures !IdChar('@') && !IdChar('{') && !IdChar('}') && !IdChar(' ')
  {
  }

  predicate Opening(c: char) {
    c == '{'
  }

  predicate Closing(c: char) {
    c == '}'
  }

  /** Length of the longest front of s in the class. */
  function Run(s: string, cls: char -> bool): (n: nat)
    ensures n <= |s| && (forall i :: 0 <= i < n ==> cls(s[i])) && (n < |s| ==> !cls(s[n]))
  {
    if s == "" || !cls(s[0]) then 0 else 1 + Run(s[1..], cls)
  }

  ghost predicate AllIn(s: string, cls: char -> bool) {
    forall i :: 0 <= i < |s| ==> cls(s[i])
  }

  ghost predicate IdWord(s: string) {
    s != "" && AllIn(s, IdChar)
  }

  /** What stands between the opening braces and the rest: spaces, an id, "@" and a name,
      spaces, and closing braces. */
  datatype Body = Body(space: string, id: string, attr: string, end: End)

  datatype End = End(gap: string, close: string, rest: string)

  /** Spaces and closing braces. */
  function MatchEnd(w: string): Option<End> {
    var d := Run(w, SpaceChar);
    var e := Run(w[d..], Closing);
    if e == 0 then None else Some(End(w[..d], w[d..][..e], w[d..][e..]))
  }

  /** "@", a name, and the end. */
  function MatchAttr(u: string): Option<(string, End)> {
    if u == "" || u[0] != '@' then None else
    var c := Run(u[1..], AttrChar);
    var m := MatchEnd(u[1..][c..]);
    if c == 0 || m.None? then None else Some((u[1..][..c], m.value))
  }

  /** Matches a body greedily. The neighbouring classes share no character, so the greedy
      match is the only one. */
  function Match(s: string): Option<Body> {
    var a := Run(s, SpaceChar);
    var b := Run(s[a..], IdChar);
    var m := MatchAttr(s[a..][b..]);
    if b == 0 || m.None? then None else Some(Body(s[..a], s[a..][..b], m.value.0, m.value.1))
  }

  function EndText(e: End): string {
    e.gap + (e.close + e.rest)
  }

  function Written(b: Body): string {
    b.space + (b.id + ("@" + (b.attr + EndText(b.end))))
  }

  lemma Split(s: string, n: nat)
    requires n <= |s|
    ensures s[..n] + s[n..] == s
  {
  }

  lemma EndMatched(w: string)
    ensures MatchEnd(w).Some? ==> EndText(MatchEnd(w).value) == w && |MatchEnd(w).value.rest| <= |w|
  {
    var d := Run(w, SpaceChar);
    Split(w, d);
    Split(w[d..], Run(w[d..], Closing));
  }

  lemma AttrMatched(u: string)
    ensures MatchAttr(u).Some? ==>
      "@" + (MatchAttr(u).value.0 + EndText(MatchAttr(u).value.1)) == u && |MatchAttr(u).value.1.rest| <= |u|
  {
    hide MatchEnd, EndText, Run;
    if u != "" && u[0] == '@' {
      var c := Run(u[1..], AttrChar);
      var w := u[1..][c..];
      EndMatched(w);
      Split(u[1..], c);
      assert u == "@" + u[1..];
    }
  }

  lemma MatchedText(s: string)
    ensures Match(s).Some? ==> Written(Match(s).value) == s && |Match(s).value.end.rest| <= |s|
  {
    var a := Run(s, SpaceChar);
    var b := Run(s[a..], IdChar);
    Split(s, a);
    Split(s[a..], b);
    AttrMatched(s[a..][b..]);
    hide MatchAttr, EndText;
  }

  function Renamed(b: Body, id: string, rest: string): Body {
    b.(id := id, end := b.end.(rest := rest))
  }

  /** Renames the id of every reference: the pattern substitution, taken one run of opening
      braces at a time. A reference starts at the first brace of a run, and if none starts
      there none starts inside the run. */
  function Substitute(s: string, f: string -> string): string
    decreases |s|
  {
    if s == "" then ""
    else if s[0] != '{' then [s[0]] + Substitute(s[1..], f)
    else
      var n := Run(s, Opening);
      var m := Match(s[n..]);
      MatchedText(s[n..]);
      if m.None? then s[..n] + Substitute(s[n..], f)
      else s[..n] + Written(Renamed(m.value, f(m.value.id), Substitute(m.value.end.rest, f)))
  }

  /** The ids referred to, in order. */
  function Refs(s: string): seq<string>
    decreases |s|
  {
    if s == "" then []
    else if s[0] != '{' then Refs(s[1..])
    else
      var n := Run(s, Opening);
      var m := Match(s[n..]);
      MatchedText(s[n..]);
      if m.None? then Refs(s[n..]) else [m.value.id] + Refs(m.value.end.rest)
  }

  function MapAll(ids: seq<string>, f: string -> string): (r: seq<string>)
    ensures |r| == |ids| && forall i :: 0 <= i < |ids| ==> r[i] == f(ids[i])
  {
    seq(|ids|, i requires 0 <= i < |ids| => f(ids[i]))
  }

  /** The three ways a text goes on. */
  lemma PlainStep(s: string, f: string -> string)
    requires s != "" && s[0] != '{'
    ensures Substitute(s, f) == [s[0]] + Substitute(s[1..], f) && Refs(s) == Refs(s[1..])
  {
    hide Match, Run;
  }

  lemma UnmatchedStep(s: string, n: nat, f: string -> string)
    requires s != "" && s[0] == '{' && n == Run(s, Opening) && n > 0 && Match(s[n..]).None?
    ensures Substitute(s, f) == s[..n] + Substitute(s[n..], f) && Refs(s) == Refs(s[n..])
  {
    hide Match, Run;
  }

  lemma MatchedStep(s: string, n: nat, b: Body, f: string -> string)
    requires s != "" && s[0] == '{' && n == Run(s, Opening) && n > 0 && Match(s[n..]) == Some(b)
    ensures |b.end.rest| < |s|
    ensures Substitute(s, f) == s[..n] + Written(Renamed(b, f(b.id), Substitute(b.end.rest, f)))
    ensures Refs(s) == [b.id] + Refs(b.end.rest)
  {
    MatchedText(s[n..]);
    hide Match, Run, Written;
  }

  /** A text whose references keep their ids stays as it is. */
  lemma {:induction false} SubstituteNothing(s: string, f: string -> string)
    requires forall id :: id in Refs(s) ==> f(id) == id
    ensures Substitute(s, f) == s
    decreases |s|
  {
    hide Match, Run, Substitute, Refs;
    if s == "" {
      SubstituteEmpty(f);
    } else if s[0] != '{' {
      PlainStep(s, f);
      SubstituteNothing(s[1..], f);
    } else {
      var n := Run(s, Opening);
      var m := Match(s[n..]);
      Split(s, n);
      if m.None? {
        UnmatchedStep(s, n, f);
        SubstituteNothing(s[n..], f);
      } else {
        MatchedStep(s, n, m.value, f);
        SubstituteNothing(m.value.end.rest, f);
        MatchedText(s[n..]);
        assert Renamed(m.value, f(m.value.id), m.value.end.rest) == m.value;
      }
    }
  }

  lemma SubstituteEmpty(f: string -> string)
    ensures Substitute("", f) == "" && Refs("") == []
  {
  }

  // ------------------------------------------------- references after renaming

  lemma {:induction false} RunIs(u: string, v: string, cls: char -> bool)
    requires AllIn(u, cls) && (v == "" || !cls(v[0]))
    ensures Run(u + v, cls) == |u| && (u + v)[..|u|] == u && (u + v)[|u|..] == v
    decreases |u|
  {
    if u == "" {
      assert u + v == v;
    } else {
      assert (u + v)[1..] == u[1..] + v;
      RunIs(u[1..], v, cls);
    }
  }

  /** The parts of a body are as the pattern wants them. */
  ghost predicate WellMade(b: Body) {
    AllIn(b.space, SpaceChar) && IdWord(b.id) && b.attr != "" && AllIn(b.attr, AttrChar) && WellEnded(b.end)
  }

  ghost predicate WellEnded(e: End) {
    AllIn(e.gap, SpaceChar) && e.close != "" && AllIn(e.close, Closing) && (e.rest == "" || e.rest[0] != '}')
  }

  lemma EndWellMade(w: string)
    ensures MatchEnd(w).Some? ==> WellEnded(MatchEnd(w).value)
  {
  }

  lemma AttrWellMade(u: string)
    ensures MatchAttr(u).Some? ==>
      var (attr, e) := MatchAttr(u).value; attr != "" && AllIn(attr, AttrChar) && WellEnded(e)
  {
    hide MatchEnd, WellEnded, Run;
    if u != "" {
      var c := Run(u[1..], AttrChar);
      EndWellMade(u[1..][c..]);
    }
  }

  lemma MatchWellMade(s: string)
    ensures Match(s).Some? ==> WellMade(Match(s).value)
  {
    hide MatchAttr, WellEnded, Run;
    var t := s[Run(s, SpaceChar)..];
    AttrWellMade(t[Run(t, IdChar)..]);
  }

  lemma EndBack(e: End)
    requires WellEnded(e)
    ensures MatchEnd(EndText(e)) == Some(e)
  {
    var x := e.close + e.rest;
    assert Closing(x[0]);
    RunIs(e.gap, x, SpaceChar);
    RunIs(e.close, e.rest, Closing);
    hide Run;
  }

  lemma AttrBack(attr: string, e: End)
    requires WellEnded(e) && attr != "" && AllIn(attr, AttrChar)
    ensures MatchAttr("@" + (attr + EndText(e))) == Some((attr, e))
  {
    hide Run, MatchEnd, EndText, WellEnded;
    var w := EndText(e);
    EndBack(e);
    EndStarts(e);
    RunIs(attr, w, AttrChar);
    var u := "@" + (attr + w);
    assert u[1..] == attr + w;
  }

  lemma EndStarts(e: End)
    requires WellEnded(e)
    ensures EndText(e) != "" && (SpaceChar(EndText(e)[0]) || Closing(EndText(e)[0]))
  {
    if e.gap != "" { assert EndText(e)[0] == e.gap[0]; } else { assert EndText(e)[0] == e.close[0]; }
  }

  /** A well-made body is matched as it was written. */
  lemma MatchBack(b: Body)
    requires WellMade(b)
    ensures Match(Written(b)) == Some(b)
  {
    hide Run, MatchAttr, EndText, WellEnded;
    var u := "@" + (b.attr + EndText(b.end));
    var t := b.id + u;
    AttrBack(b.attr, b.end);
    assert IdChar(b.id[0]) && t[0] == b.id[0];
    RunIs(b.space, t, SpaceChar);
    RunIs(b.id, u, IdChar);
  }

  /** Text without an opening brace is copied. */
  lemma {:induction false} CopiesPlain(u: string, v: string, f: string -> string)
    requires forall i :: 0 <= i < |u| ==> u[i] != '{'
    ensures Substitute(u + v, f) == u + Substitute(v, f)
    decreases |u|
  {
    hide Substitute, Refs, Run, Match;
    if u == "" {
      assert u + v == v;
    } else {
      assert (u + v)[1..] == u[1..] + v;
      PlainStep(u + v, f);
      CopiesPlain(u[1..], v, f);
      assert u == [u[0]] + u[1..];
    }
  }

  /** Renaming keeps where the braces are: what starts with one still does. */
  lemma SubstituteStarts(s: string, f: string -> string)
    ensures s == "" <==> Substitute(s, f) == ""
    ensures s != "" ==> Substitute(s, f)[0] == s[0]
  {
    if s != "" && s[0] == '{' {
      assert Run(s, Opening) > 0;
    }
  }

  /** Position of the next opening brace, or the end. */
  function NextBrace(s: string): (n: nat)
    ensures n <= |s| && (forall i :: 0 <= i < n ==> s[i] != '{') && (n < |s| ==> s[n] == '{')
  {
    if s == "" || s[0] == '{' then 0 else 1 + NextBrace(s[1..])
  }

  lemma {:induction false} RunLocal(u: string, v: string, cls: char -> bool)
    requires v == "" || !cls(v[0])
    ensures Run(u + v, cls) == Run(u, cls)
    decreases |u|
  {
    if u == "" {
      assert u + v == v;
    } else {
      assert (u + v)[1..] == u[1..] + v;
      RunLocal(u[1..], v, cls);
    }
  }

  lemma RestLocal(u: string, v: string, cls: char -> bool) returns (rest: string)
    requires v == "" || !cls(v[0])
    ensures Run(u + v, cls) == Run(u, cls) && rest == u[Run(u, cls)..] && (u + v)[Run(u, cls)..] == rest + v
  {
    RunLocal(u, v, cls);
    rest := u[Run(u, cls)..];
  }

  /** Whether a body matches is decided before the next opening brace. */
  lemma EndLocal(w: string, v: string)
    requires v == "" || v[0] == '{'
    ensures MatchEnd(w + v).None? <==> MatchEnd(w).None?
  {
    var x := RestLocal(w, v, SpaceChar);
    RunLocal(x, v, Closing);
    hide Run;
  }

  lemma AttrLocal(u: string, v: string)
    requires v == "" || v[0] == '{'
    ensures MatchAttr(u + v).None? <==> MatchAttr(u).None?
  {
    if u != "" {
      assert (u + v)[1..] == u[1..] + v && (u + v)[0] == u[0];
      var w := RestLocal(u[1..], v, AttrChar);
      EndLocal(w, v);
    }
    hide Run, MatchEnd;
  }

  lemma MatchLocal(u: string, v: string)
    requires v == "" || v[0] == '{'
    ensures Match(u + v).None? <==> Match(u).None?
  {
    var t := RestLocal(u, v, SpaceChar);
    var x := RestLocal(t, v, IdChar);
    AttrLocal(x, v);
    hide Run, MatchAttr;
  }

  /** No reference starts where none started before. */
  lemma StaysUnmatched(t: string, f: string -> string)
    requires Match(t).None? && (t == "" || t[0] != '{')
    ensures Match(Substitute(t, f)).None?
  {
    var n := NextBrace(t);
    var u, v := t[..n], t[n..];
    assert t == u + v;
    CopiesPlain(u, v, f);
    SubstituteStarts(v, f);
    MatchLocal(u, v);
    MatchLocal(u, Substitute(v, f));
    hide Match;
  }

  lemma RunThen(n: nat, s: string, rest: string)
    requires n == Run(s, Opening) && (rest == "" || rest[0] != '{')
    ensures Run(s[..n] + rest, Opening) == n && (s[..n] + rest)[n..] == rest
  {
    RunIs(s[..n], rest, Opening);
  }

  /** Every reference refers to the renamed id and no other reference appears. */
  lemma {:induction false} RefsRenamed(s: string, f: string -> string)
    requires forall id :: IdWord(id) ==> IdWord(f(id))
    ensures Refs(Substitute(s, f)) == MapAll(Refs(s), f)
    decreases |s|
  {
    hide Match, Run, Substitute, Refs, IdWord;
    if s == "" {
      SubstituteEmpty(f);
    } else if s[0] != '{' {
      PlainStep(s, f);
      RefsRenamed(s[1..], f);
      var out := Substitute(s, f);
      PlainStep(out, f);
      assert out[1..] == Substitute(s[1..], f);
    } else {
      var n := Run(s, Opening);
      var m := Match(s[n..]);
      if m.None? {
        UnmatchedStep(s, n, f);
        RefsRenamed(s[n..], f);
        UnmatchedRenamed(s, n, f);
      } else {
        MatchWellMade(s[n..]);
        MatchedStep(s, n, m.value, f);
        RefsRenamed(m.value.end.rest, f);
        MatchedRenamed(s, n, m.value, f);
        MapFirst(m.value.id, Refs(m.value.end.rest), f);
      }
    }
  }

  lemma MapFirst(id: string, ids: seq<string>, f: string -> string)
    ensures MapAll([id] + ids, f) == [f(id)] + MapAll(ids, f)
  {
  }

  lemma UnmatchedRenamed(s: string, n: nat, f: string -> string)
    requires s != "" && s[0] == '{' && n == Run(s, Opening) && n > 0 && Match(s[n..]).None?
    ensures Refs(Substitute(s, f)) == Refs(Substitute(s[n..], f))
  {
    hide Match, Run, Substitute, Refs;
    var t := s[n..];
    SubstituteStarts(t, f);
    StaysUnmatched(t, f);
    RunThen(n, s, Substitute(t, f));
    UnmatchedStep(s, n, f);
    var out := s[..n] + Substitute(t, f);
    assert out[0] == '{';
    UnmatchedStep(out, n, f);
  }

  lemma MatchedRenamed(s: string, n: nat, b: Body, f: string -> string)
    requires s != "" && s[0] == '{' && n == Run(s, Opening) && n > 0 && Match(s[n..]) == Some(b) && WellMade(b)
    requires |b.end.rest| < |s| && forall id :: IdWord(id) ==> IdWord(f(id))
    ensures Refs(Substitute(s, f)) == [f(b.id)] + Refs(Substitute(b.end.rest, f))
  {
    hide Match, Run, Substitute, Refs, Written;
    var c := Renamed(b, f(b.id), Substitute(b.end.rest, f));
    SubstituteStarts(b.end.rest, f);
    assert WellMade(c);
    MatchBack(c);
    WrittenStarts(c);
    RunThen(n, s, Written(c));
    MatchedStep(s, n, b, f);
    var out := s[..n] + Written(c);
    assert out != "" && out[0] == '{';
    MatchedStep(out, n, c, f);
  }

  lemma WrittenStarts(b: Body)
    requires WellMade(b)
    ensures Written(b) != "" && Written(b)[0] != '{'
  {
    if b.space != "" {
      assert SpaceChar(b.space[0]) && Written(b)[0] == b.space[0];
    } else {
      assert IdChar(b.id[0]) && Written(b)[0] == b.id[0];
    }
  }

  /** A reference: what stands before it is copied, its id is renamed, everything else about it
      stays, and the search goes on after its closing braces. */
  lemma ReferenceRenamed(u: string, braces: string, b: Body, f: string -> string)
    requires (forall i :: 0 <= i < |u| ==> u[i] != '{') && braces != "" && AllIn(braces, Opening) && WellMade(b)
    ensures Substitute(u + (braces + Written(b)), f) == u + (braces + Written(Renamed(b, f(b.id), Substitute(b.end.rest, f))))
    ensures Refs(braces + Written(b)) == [b.id] + Refs(b.end.rest)
  {
    var w := Written(b);
    var s := braces + w;
    CopiesPlain(u, s, f);
    WrittenStarts(b);
    RunIs(braces, w, Opening);
    MatchBack(b);
    assert Opening(braces[0]);
    hide Substitute, Refs, Run, Match, Written, WellMade;
    assert s[0] == braces[0] && s[|braces|..] == w && s[..|braces|] == braces;
    MatchedStep(s, |braces|, b, f);
  }

  const EXAMPLE := Body("", "Splitter:0", "out", End("", "}}", "."))

  lemma ExampleWritten(id: string)
    ensures WellMade(EXAMPLE) && Written(EXAMPLE) == "Splitter:0@out}}."
    ensures Written(Renamed(EXAMPLE, id, ".")) == id + "@out}}."
  {
    assert EndText(EXAMPLE.end) == "}}.";
    assert id + ("@" + ("out" + "}}.")) == id + "@out}}.";
  }

  lemma Dot(f: string -> string)
    ensures Substitute(".", f) == "." && Refs(".") == []
  {
    PlainStep(".", f);
    SubstituteEmpty(f);
    assert "."[1..] == "";
  }

  /** One text with a reference in it. */
  lemma ReferenceExample(f: string -> string)
    ensures Substitute("see " + ("{{" + "Splitter:0@out}}."), f) == "see " + ("{{" + (f("Splitter:0") + "@out}}."))
    ensures Refs("{{" + "Splitter:0@out}}.") == ["Splitter:0"]
  {
    hide Substitute, Refs, Written, WellMade, Renamed, Match, Run;
    ExampleWritten(f("Splitter:0"));
    Dot(f);
    ReferenceRenamed("see ", "{{", EXAMPLE, f);
  }
}
