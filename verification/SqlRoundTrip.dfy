/** Reading back what was written: lexing and parsing undo the text of a tree. */
module SqlRoundTrip {
  import opened Options
  import opened TextPatterns
  import opened SqlText

  // ------------------------------------------------- tokens of a tree

  function OperandToken(x: Operand): Token {
    if x.Quoted? then Str(x.s) else Word(x.w)
  }

  function OpTokens(op: SqlOp): seq<Token> {
    match op
    case Eq => [Sym('=')]
    case Ne => [Sym('!'), Sym('=')]
    case Gt => [Sym('>')]
    case Lt => [Sym('<')]
    case Ge => [Sym('>'), Sym('=')]
    case Le => [Sym('<'), Sym('=')]
    case LikeOp => [Word("LIKE")]
  }

  function AtomTokens(a: Atom): seq<Token> {
    match a
    case OneIsOne => [Word("1"), Sym('='), Word("1")]
    case Contains(path, x) => [Word(CONTAINS), LParen, Word(FIELDS), Comma, Str(path), Comma, OperandToken(x), RParen]
    case Extracted(double, path, op, x) =>
      [Word(if double then DOUBLE else STRING), LParen, Word(FIELDS), Comma, Str(path), RParen] + (OpTokens(op) + [OperandToken(x)])
  }

  ghost function UnitTokens(e: Expr): seq<Token> {
    match e
    case Leaf(a) => AtomTokens(a)
    case Neg(u) => [Word("NOT")] + UnitTokens(u)
    case Disj(ts) => [LParen] + OrTokens(ts) + [RParen]
    case Conj(us) => AndTokens(us)
  }

  ghost function OrTokens(ts: seq<Expr>): seq<Token> {
    if ts == [] then [] else if |ts| == 1 then UnitTokens(ts[0]) else UnitTokens(ts[0]) + [Word("OR")] + OrTokens(ts[1..])
  }

  ghost function AndTokens(us: seq<Expr>): seq<Token> {
    if us == [] then [] else if |us| == 1 then UnitTokens(us[0]) else UnitTokens(us[0]) + [Word("AND")] + AndTokens(us[1..])
  }

  // ------------------------------------------------- lexing

  /** What may follow an operand or a closing parenthesis. */
  ghost predicate Boundary(rest: string) {
    rest == "" || (!WordChar(rest[0]) && rest[0] != '\'')
  }

  lemma {:induction false} RunOfWord(w: string, rest: string)
    requires (forall i :: 0 <= i < |w| ==> WordChar(w[i])) && (rest == "" || !WordChar(rest[0]))
    ensures Run(w + rest) == |w|
    decreases |w|
  {
    if w == "" {
      assert w + rest == rest;
    } else {
      assert (w + rest)[1..] == w[1..] + rest;
      RunOfWord(w[1..], rest);
    }
  }

  lemma LexWord(w: string, rest: string)
    requires IsWord(w) && (rest == "" || !WordChar(rest[0]))
    ensures Lex(w + rest) == [Word(w)] + Lex(rest)
  {
    RunOfWord(w, rest);
    assert (w + rest)[..|w|] == w && (w + rest)[|w|..] == rest;
    assert WordChar(w[0]);
  }

  lemma {:induction false} ReadEscaped(s: string, rest: string)
    requires rest == "" || rest[0] != '\''
    ensures ReadQuoted(EscapeSql(s) + "'" + rest) == Some((s, rest))
    decreases |s|
  {
    if s == "" {
      assert EscapeSql(s) + "'" + rest == ['\''] + rest;
      assert (['\''] + rest)[1..] == rest;
    } else {
      ReadEscaped(s[1..], rest);
      var tail := EscapeSql(s[1..]) + "'" + rest;
      if s[0] == '\'' {
        assert EscapeSql(s) + "'" + rest == "''" + tail;
        assert ("''" + tail)[2..] == tail;
      } else {
        assert EscapeSql(s) + "'" + rest == [s[0]] + tail;
        assert ([s[0]] + tail)[1..] == tail;
      }
      assert s == [s[0]] + s[1..];
    }
  }

  /** A quoted literal reads back as its text, quotes in it or not. */
  lemma LexQuote(s: string, rest: string)
    requires rest == "" || rest[0] != '\''
    ensures Lex(Quote(s) + rest) == [Str(s)] + Lex(rest)
  {
    hide EscapeSql, ReadQuoted;
    ReadEscaped(s, rest);
    var all := Quote(s) + rest;
    var inner := EscapeSql(s) + "'" + rest;
    assert all == "'" + inner && all[0] == '\'';
    assert all[1..] == inner;
    hide Quote;
    assert ReadQuoted(all[1..]) == Some((s, rest));
  }

  lemma LexChar(c: char, rest: string)
    requires c == ' ' || c == '(' || c == ')' || c == ',' || SymChar(c)
    ensures Lex([c] + rest)
      == (if c == ' ' then [] else if c == '(' then [LParen] else if c == ')' then [RParen] else if c == ',' then [Comma] else [Sym(c)])
         + Lex(rest)
  {
    assert ([c] + rest)[1..] == rest;
  }

  lemma LexOperand(x: Operand, rest: string)
    requires OperandOk(x) && Boundary(rest)
    ensures Lex(OperandText(x) + rest) == [OperandToken(x)] + Lex(rest)
  {
    if x.Quoted? { LexQuote(x.s, rest); } else { LexWord(x.w, rest); }
  }

  lemma Keywords()
    ensures IsWord(CONTAINS) && IsWord(DOUBLE) && IsWord(STRING) && IsWord(FIELDS)
    ensures IsWord("LIKE") && IsWord("NOT") && IsWord("AND") && IsWord("OR") && IsWord("1")
  {
  }

  lemma Assoc(a: string, b: string, c: string)
    ensures (a + b) + c == a + (b + c)
  {
  }

  lemma CommaSpace(a: string)
    ensures ", " + a == "," + (" " + a)
  {
  }

  /** `name(meta_fields, 'path'` and what follows it. */
  lemma LexHead(name: string, path: string, rest: string)
    requires IsWord(name) && (rest == "" || rest[0] != '\'')
    ensures Lex(Call(name, path) + rest) == [Word(name), LParen, Word(FIELDS), Comma, Str(path)] + Lex(rest)
  {
    Keywords();
    hide Lex, Quote, IsWord;
    var a := Quote(path) + rest;
    var c := "," + (" " + a);
    Assoc(name + "(" + FIELDS + ", ", Quote(path), rest);
    Assoc(name + "(" + FIELDS, ", ", a);
    CommaSpace(a);
    Assoc(name + "(", FIELDS, c);
    Assoc(name, "(", FIELDS + c);
    LexQuote(path, rest);
    LexChar(' ', a);
    LexChar(',', " " + a);
    LexWord(FIELDS, c);
    LexChar('(', FIELDS + c);
    LexWord(name, "(" + (FIELDS + c));
  }

  lemma LexOp(op: SqlOp, rest: string)
    ensures Lex(OpText(op) + (" " + rest)) == OpTokens(op) + Lex(rest)
  {
    Keywords();
    hide Lex, IsWord;
    var tail := " " + rest;
    LexChar(' ', rest);
    match op
    case LikeOp => LexWord("LIKE", tail);
    case Eq => LexChar('=', tail);
    case Gt => LexChar('>', tail);
    case Lt => LexChar('<', tail);
    case Ne => LexChar('=', tail); LexChar('!', "=" + tail); assert "!=" + tail == "!" + ("=" + tail);
    case Ge => LexChar('=', tail); LexChar('>', "=" + tail); assert ">=" + tail == ">" + ("=" + tail);
    case Le => LexChar('=', tail); LexChar('<', "=" + tail); assert "<=" + tail == "<" + ("=" + tail);
  }

  lemma LexContains(path: string, x: Operand, rest: string)
    requires OperandOk(x)
    ensures Lex(AtomText(Contains(path, x)) + rest) == AtomTokens(Contains(path, x)) + Lex(rest)
  {
    Keywords();
    hide Lex, Quote, IsWord, OperandText, OperandOk, Call;
    var head := Call(CONTAINS, path);
    var c := OperandText(x) + (")" + rest);
    Assoc(head + ", " + OperandText(x), ")", rest);
    Assoc(head + ", ", OperandText(x), ")" + rest);
    Assoc(head, ", ", c);
    CommaSpace(c);
    LexChar(')', rest);
    LexOperand(x, ")" + rest);
    LexChar(' ', c);
    LexChar(',', " " + c);
    LexHead(CONTAINS, path, "," + (" " + c));
  }

  /** The text of an extraction, and its tokens, from the left. */
  lemma ExtractedText(double: bool, path: string, op: SqlOp, x: Operand, rest: string)
    ensures AtomText(Extracted(double, path, op, x)) + rest
            == Call(if double then DOUBLE else STRING, path) + (")" + (" " + (OpText(op) + (" " + (OperandText(x) + rest)))))
  {
    hide OpText, OperandText, Call;
    var head := Call(if double then DOUBLE else STRING, path);
    var d := OperandText(x) + rest;
    var c := OpText(op) + (" " + d);
    Assoc(head + ") " + OpText(op) + " ", OperandText(x), rest);
    Assoc(head + ") " + OpText(op), " ", d);
    Assoc(head + ") ", OpText(op), " " + d);
    Assoc(head, ") ", c);
    assert ") " + c == ")" + (" " + c);
  }

  lemma ExtractedTokens(double: bool, path: string, op: SqlOp, x: Operand, rest: seq<Token>)
    ensures AtomTokens(Extracted(double, path, op, x)) + rest
            == [Word(if double then DOUBLE else STRING), LParen, Word(FIELDS), Comma, Str(path)]
               + ([RParen] + (OpTokens(op) + ([OperandToken(x)] + rest)))
  {
    hide OpTokens, OperandToken;
  }

  /** What follows the path of an extraction. */
  lemma LexComparison(op: SqlOp, x: Operand, rest: string)
    requires OperandOk(x) && Boundary(rest)
    ensures Lex(")" + (" " + (OpText(op) + (" " + (OperandText(x) + rest))))) == [RParen] + (OpTokens(op) + ([OperandToken(x)] + Lex(rest)))
  {
    hide Lex, OperandText, OperandOk, OpText, OpTokens, OperandToken, Boundary;
    var d := OperandText(x) + rest;
    var c := OpText(op) + (" " + d);
    LexOperand(x, rest);
    LexOp(op, d);
    LexChar(' ', c);
    LexChar(')', " " + c);
  }

  lemma LexExtracted(double: bool, path: string, op: SqlOp, x: Operand, rest: string)
    requires OperandOk(x) && Boundary(rest)
    ensures Lex(AtomText(Extracted(double, path, op, x)) + rest) == AtomTokens(Extracted(double, path, op, x)) + Lex(rest)
  {
    Keywords();
    hide Lex, Quote, IsWord, OperandText, OperandOk, OpText, OpTokens, OperandToken, AtomText, AtomTokens, Call, Boundary;
    var c := OpText(op) + (" " + (OperandText(x) + rest));
    ExtractedText(double, path, op, x, rest);
    LexComparison(op, x, rest);
    LexHead(if double then DOUBLE else STRING, path, ")" + (" " + c));
    ExtractedTokens(double, path, op, x, Lex(rest));
  }

  lemma LexOne(rest: string)
    requires rest == "" || !WordChar(rest[0])
    ensures Lex("1=1" + rest) == [Word("1"), Sym('='), Word("1")] + Lex(rest)
  {
    Keywords();
    hide Lex, IsWord;
    var a := "1" + rest;
    LexWord("1", rest);
    LexChar('=', a);
    LexWord("1", "=" + a);
    assert "1=1" + rest == "1" + ("=" + a);
  }

  lemma LexAtom(a: Atom, rest: string)
    requires AtomOk(a) && Boundary(rest)
    ensures Lex(AtomText(a) + rest) == AtomTokens(a) + Lex(rest)
  {
    hide Lex, Call, OperandText, OpText, OpTokens, OperandToken, OperandOk;
    match a
    case Contains(path, x) => LexContains(path, x, rest);
    case Extracted(double, path, op, x) => LexExtracted(double, path, op, x, rest);
    case OneIsOne => LexOne(rest);
  }

  lemma LexJoin(a: string, word: string, b: string, rest: string)
    requires IsWord(word)
    ensures a + (" " + word + " ") + b + rest == a + (" " + (word + (" " + (b + rest))))
    ensures Lex(" " + (word + (" " + (b + rest)))) == [Word(word)] + Lex(b + rest)
  {
    hide Lex, IsWord;
    var tail := " " + (b + rest);
    LexChar(' ', b + rest);
    LexWord(word, tail);
    LexChar(' ', word + tail);
    Assoc(a + (" " + word + " "), b, rest);
    Assoc(a, " " + word + " ", b + rest);
    Assoc(" " + word, " ", b + rest);
    Assoc(" ", word, tail);
  }

  lemma {:induction false} LexUnit(e: Expr, rest: string)
    requires IsUnit(e) && Boundary(rest)
    ensures Lex(UnitText(e) + rest) == UnitTokens(e) + Lex(rest)
    decreases e, 2
  {
    hide Lex, IsWord, AtomText, AtomTokens;
    match e
    case Leaf(a) => LexAtom(a, rest);
    case Neg(u) =>
      LexUnit(u, rest);
      LexNot(UnitText(u), rest);
    case Disj(ts) =>
      LexOr(ts, ")" + rest);
      LexParens(OrText(ts), rest);
  }

  lemma LexNot(t: string, rest: string)
    ensures Lex("NOT " + t + rest) == [Word("NOT")] + Lex(t + rest)
  {
    Keywords();
    hide Lex, IsWord;
    var a := t + rest;
    LexChar(' ', a);
    LexWord("NOT", " " + a);
    Assoc("NOT ", t, rest);
    assert "NOT " + a == "NOT" + (" " + a);
  }

  lemma LexParens(t: string, rest: string)
    ensures Lex("(" + t + ")" + rest) == [LParen] + Lex(t + (")" + rest))
    ensures Lex(")" + rest) == [RParen] + Lex(rest)
  {
    hide Lex;
    var a := ")" + rest;
    LexChar(')', rest);
    LexChar('(', t + a);
    Assoc("(" + t, ")", rest);
    Assoc("(", t, a);
  }

  lemma AndParts(us: seq<Expr>)
    requires |us| > 1
    ensures AndText(us) == UnitText(us[0]) + " AND " + AndText(us[1..])
    ensures AndTokens(us) == UnitTokens(us[0]) + [Word("AND")] + AndTokens(us[1..])
  {
    hide UnitText, UnitTokens;
  }

  lemma ConjParts(t: Expr)
    requires t.Conj?
    ensures UnitText(t) == AndText(t.factors) && UnitTokens(t) == AndTokens(t.factors)
  {
    hide AndText, AndTokens;
  }

  lemma OrParts(ts: seq<Expr>)
    requires |ts| > 1
    ensures OrText(ts) == UnitText(ts[0]) + " OR " + OrText(ts[1..])
    ensures OrTokens(ts) == UnitTokens(ts[0]) + [Word("OR")] + OrTokens(ts[1..])
  {
    hide UnitText, UnitTokens;
  }

  lemma {:induction false} LexOr(ts: seq<Expr>, rest: string)
    requires IsOr(ts) && Boundary(rest)
    ensures Lex(OrText(ts) + rest) == OrTokens(ts) + Lex(rest)
    decreases ts, 1
  {
    Keywords();
    hide Lex, IsWord, AtomText, AtomTokens;
    assert ts[0].Conj? && IsAnd(ts[0].factors);
    if |ts| == 1 {
      LexAnd(ts[0].factors, rest);
    } else {
      OrParts(ts);
      ConjParts(ts[0]);
      LexOr(ts[1..], rest);
      hide OrText, OrTokens, UnitText, UnitTokens;
      LexJoin(UnitText(ts[0]), "OR", OrText(ts[1..]), rest);
      LexAnd(ts[0].factors, " " + ("OR" + (" " + (OrText(ts[1..]) + rest))));
      assert " OR " == " " + "OR" + " ";
    }
  }

  lemma {:induction false} LexAnd(us: seq<Expr>, rest: string)
    requires IsAnd(us) && Boundary(rest)
    ensures Lex(AndText(us) + rest) == AndTokens(us) + Lex(rest)
    decreases us, 0
  {
    Keywords();
    hide Lex, IsWord, AtomText, AtomTokens;
    assert IsUnit(us[0]);
    if |us| == 1 {
      LexUnit(us[0], rest);
    } else {
      AndParts(us);
      LexAnd(us[1..], rest);
      hide AndText, AndTokens, UnitText, UnitTokens;
      LexJoin(UnitText(us[0]), "AND", AndText(us[1..]), rest);
      LexUnit(us[0], " " + ("AND" + (" " + (AndText(us[1..]) + rest))));
      assert " AND " == " " + "AND" + " ";
    }
  }

  // ------------------------------------------------- parsing

  lemma ParseAtomBack(a: Atom, rest: seq<Token>)
    ensures ParseAtom(AtomTokens(a) + rest) == Some((a, rest))
    ensures AtomTokens(a)[0] != LParen && AtomTokens(a)[0] != Word("NOT")
  {
    var ts := AtomTokens(a) + rest;
    assert ts[0] == AtomTokens(a)[0];
    match a
    case OneIsOne =>
      assert ts[..3] == AtomTokens(a) && ts[3..] == rest;
    case Contains(path, x) => ContainsBack(path, x, rest);
    case Extracted(double, path, op, x) => ExtractedBack(double, path, op, x, rest);
  }

  lemma ContainsBack(path: string, x: Operand, rest: seq<Token>)
    ensures ParseContains(AtomTokens(Contains(path, x)) + rest) == Some((Contains(path, x), rest))
  {
    var six := [Word(CONTAINS), LParen, Word(FIELDS), Comma, Str(path), Comma];
    var tail := [OperandToken(x)] + ([RParen] + rest);
    var ts := AtomTokens(Contains(path, x)) + rest;
    assert ts == six + tail;
    assert ts[6..] == tail;
    hide ParseOperand;
    assert ([RParen] + rest)[1..] == rest;
  }

  lemma ExtractedBack(double: bool, path: string, op: SqlOp, x: Operand, rest: seq<Token>)
    ensures ParseExtracted(AtomTokens(Extracted(double, path, op, x)) + rest, double) == Some((Extracted(double, path, op, x), rest))
  {
    var six := [Word(if double then DOUBLE else STRING), LParen, Word(FIELDS), Comma, Str(path), RParen];
    var tail := [OperandToken(x)] + rest;
    var ts := AtomTokens(Extracted(double, path, op, x)) + rest;
    assert ts == six + (OpTokens(op) + tail);
    assert ts[6..] == OpTokens(op) + tail;
    ParseOpBack(op, tail, OperandToken(x));
    hide ParseOperand, ParseOp, OpTokens;
  }

  lemma ParseOpBack(op: SqlOp, rest: seq<Token>, x: Token)
    requires rest != [] && rest[0] == x && (x.Str? || x.Word?)
    ensures ParseOp(OpTokens(op) + rest) == Some((op, rest))
  {
    var ts := OpTokens(op) + rest;
    assert ts[|OpTokens(op)|..] == rest;
  }

  lemma {:induction false} ParseUnitBack(e: Expr, rest: seq<Token>)
    requires IsUnit(e)
    ensures ParseUnit(UnitTokens(e) + rest) == Some((e, rest))
    decreases e, 2
  {
    hide ParseOr, ParseAnd, ParseAtom, AtomTokens;
    var ts := UnitTokens(e) + rest;
    match e
    case Leaf(a) => ParseAtomBack(a, rest);
    case Neg(u) =>
      ParseUnitBack(u, rest);
      assert ts[1..] == UnitTokens(u) + rest;
    case Disj(terms) =>
      ParseOrBack(terms, [RParen] + rest);
      assert ts[1..] == OrTokens(terms) + ([RParen] + rest);
      assert ([RParen] + rest)[1..] == rest;
  }

  /** One step of reading a disjunction. */
  lemma ParseOrStep(us: seq<Expr>, terms: seq<Expr>, rest: seq<Token>)
    requires us != [] && terms != [] && ParseOr(OrTokens(terms) + rest) == Some((terms, rest))
    requires ParseAnd(AndTokens(us) + ([Word("OR")] + (OrTokens(terms) + rest))) == Some((us, [Word("OR")] + (OrTokens(terms) + rest)))
    ensures ParseOr(OrTokens([Conj(us)] + terms) + rest) == Some(([Conj(us)] + terms, rest))
  {
    hide ParseAnd, ParseUnit, AtomTokens, AndTokens;
    var tail := [Word("OR")] + (OrTokens(terms) + rest);
    OrParts([Conj(us)] + terms);
    ConjParts(Conj(us));
    assert ([Conj(us)] + terms)[1..] == terms;
    hide OrTokens, UnitTokens;
    assert OrTokens([Conj(us)] + terms) + rest == AndTokens(us) + tail;
    assert tail[0] == Word("OR") && tail[1..] == OrTokens(terms) + rest;
  }

  lemma {:induction false} ParseOrBack(terms: seq<Expr>, rest: seq<Token>)
    requires IsOr(terms) && !StartsWithWord(rest, "AND") && !StartsWithWord(rest, "OR")
    ensures ParseOr(OrTokens(terms) + rest) == Some((terms, rest))
    decreases terms, 1
  {
    hide ParseAnd, ParseUnit, AtomTokens;
    assert terms[0].Conj? && IsAnd(terms[0].factors);
    if |terms| == 1 {
      ParseAndBack(terms[0].factors, rest);
      assert terms == [Conj(terms[0].factors)];
    } else {
      var tail := [Word("OR")] + (OrTokens(terms[1..]) + rest);
      ParseOrBack(terms[1..], rest);
      ParseAndBack(terms[0].factors, tail);
      hide ParseOr, OrTokens, AndTokens;
      ParseOrStep(terms[0].factors, terms[1..], rest);
      assert terms == [Conj(terms[0].factors)] + terms[1..];
    }
  }

  /** One step of reading a conjunction. */
  lemma ParseAndStep(u: Expr, us: seq<Expr>, rest: seq<Token>)
    requires us != [] && ParseAnd(AndTokens(us) + rest) == Some((us, rest))
    requires ParseUnit(UnitTokens(u) + ([Word("AND")] + (AndTokens(us) + rest))) == Some((u, [Word("AND")] + (AndTokens(us) + rest)))
    ensures ParseAnd(AndTokens([u] + us) + rest) == Some(([u] + us, rest))
  {
    hide ParseOr, ParseUnit, AtomTokens, UnitTokens;
    var tail := [Word("AND")] + (AndTokens(us) + rest);
    assert ([u] + us)[1..] == us;
    assert AndTokens([u] + us) == UnitTokens(u) + [Word("AND")] + AndTokens(us);
    hide AndTokens;
    assert AndTokens([u] + us) + rest == UnitTokens(u) + tail;
    assert tail[0] == Word("AND") && tail[1..] == AndTokens(us) + rest;
  }

  lemma {:induction false} ParseAndBack(us: seq<Expr>, rest: seq<Token>)
    requires IsAnd(us) && !StartsWithWord(rest, "AND")
    ensures ParseAnd(AndTokens(us) + rest) == Some((us, rest))
    decreases us, 0
  {
    hide ParseOr, ParseUnit, AtomTokens;
    assert IsUnit(us[0]);
    if |us| == 1 {
      ParseUnitBack(us[0], rest);
      assert us == [us[0]];
    } else {
      var tail := [Word("AND")] + (AndTokens(us[1..]) + rest);
      ParseAndBack(us[1..], rest);
      ParseUnitBack(us[0], tail);
      hide ParseAnd, AndTokens;
      ParseAndStep(us[0], us[1..], rest);
      assert us == [us[0]] + us[1..];
    }
  }

  /** Reading the text of a disjunction gives the disjunction back. */
  lemma ReadsBack(terms: seq<Expr>)
    requires IsOr(terms)
    ensures Read(OrText(terms)) == Some(Disj(terms))
  {
    LexOr(terms, "");
    assert OrText(terms) + "" == OrText(terms);
    ParseOrBack(terms, []);
    assert OrTokens(terms) + Lex("") == OrTokens(terms) + [];
  }
}
