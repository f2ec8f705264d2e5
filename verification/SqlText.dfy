/** The SQL boolean fragment of the Infinity filter: trees, their text, and how a reader with
    the precedence NOT over AND over OR reads the text back. */
module SqlText {
  import opened Options
  import opened TextPatterns

  // ------------------------------------------------- trees

  datatype Operand = Quoted(s: string) | Number(w: string)

  datatype SqlOp = Eq | Ne | Gt | Lt | Ge | Le | LikeOp

  /** `JSON_CONTAINS(meta_fields, path, x)`, a comparison of an extracted value, or `1=1`. */
  datatype Atom =
    | Contains(path: string, x: Operand)
    | Extracted(double: bool, path: string, op: SqlOp, x: Operand)
    | OneIsOne

  /** Disjunctions of conjunctions of units; a unit is an atom, a negated unit or a
      parenthesised disjunction. */
  datatype Expr = Disj(terms: seq<Expr>) | Conj(factors: seq<Expr>) | Neg(e: Expr) | Leaf(a: Atom)

  ghost predicate IsUnit(e: Expr) {
    match e
    case Leaf(a) => AtomOk(a)
    case Neg(u) => IsUnit(u)
    case Disj(ts) => IsOr(ts)
    case Conj(_) => false
  }

  ghost predicate IsOr(ts: seq<Expr>) {
    ts != [] && forall i :: 0 <= i < |ts| ==> ts[i].Conj? && IsAnd(ts[i].factors)
  }

  ghost predicate IsAnd(us: seq<Expr>) {
    us != [] && forall i :: 0 <= i < |us| ==> IsUnit(us[i])
  }

  ghost predicate AtomOk(a: Atom) {
    a.OneIsOne? || OperandOk(a.x)
  }

  ghost predicate OperandOk(x: Operand) {
    x.Number? ==> IsWord(x.w)
  }

  // ------------------------------------------------- text

  predicate WordChar(c: char) {
    'a' <= c <= 'z' || 'A' <= c <= 'Z' || '0' <= c <= '9' || c == '_' || c == '.' || c == '+' || c == '-'
  }

  ghost predicate IsWord(w: string) {
    w != "" && forall i :: 0 <= i < |w| ==> WordChar(w[i])
  }

  /** `_escape_sql_string`. */
  function EscapeSql(s: string): string {
    Replace(s, '\'', "''")
  }

  function Quote(s: string): string {
    "'" + EscapeSql(s) + "'"
  }

  function OperandText(x: Operand): string {
    if x.Quoted? then Quote(x.s) else x.w
  }

  function OpText(op: SqlOp): string {
    match op
    case Eq => "="
    case Ne => "!="
    case Gt => ">"
    case Lt => "<"
    case Ge => ">="
    case Le => "<="
    case LikeOp => "LIKE"
  }

  const CONTAINS := "JSON_CONTAINS"
  const DOUBLE := "JSON_EXTRACT_DOUBLE"
  const STRING := "JSON_EXTRACT_STRING"
  const FIELDS := "meta_fields"

  function Call(name: string, path: string): string {
    name + "(" + FIELDS + ", " + Quote(path)
  }

  function AtomText(a: Atom): string {
    match a
    case OneIsOne => "1=1"
    case Contains(path, x) => Call(CONTAINS, path) + ", " + OperandText(x) + ")"
    case Extracted(double, path, op, x) =>
      Call(if double then DOUBLE else STRING, path) + ") " + OpText(op) + " " + OperandText(x)
  }

  /** `joiner.join(parts)`. */
  function Join(parts: seq<string>, joiner: string): string {
    if parts == [] then ""
    else if |parts| == 1 then parts[0]
    else parts[0] + joiner + Join(parts[1..], joiner)
  }

  ghost function UnitText(e: Expr): string {
    match e
    case Leaf(a) => AtomText(a)
    case Neg(u) => "NOT " + UnitText(u)
    case Disj(ts) => "(" + OrText(ts) + ")"
    case Conj(us) => AndText(us)
  }

  ghost function OrText(ts: seq<Expr>): string {
    if ts == [] then "" else if |ts| == 1 then UnitText(ts[0]) else UnitText(ts[0]) + " OR " + OrText(ts[1..])
  }

  ghost function AndText(us: seq<Expr>): string {
    if us == [] then "" else if |us| == 1 then UnitText(us[0]) else UnitText(us[0]) + " AND " + AndText(us[1..])
  }

  // ------------------------------------------------- reading: tokens

  datatype Token = LParen | RParen | Comma | Sym(c: char) | Word(w: string) | Str(s: string) | Bad

  /** A literal after its opening quote: two quotes are one, a single one ends it. */
  function ReadQuoted(s: string): (r: Option<(string, string)>)
    ensures r.Some? ==> |r.value.1| < |s|
  {
    if s == "" then None
    else if s[0] != '\'' then
      var r := ReadQuoted(s[1..]);
      if r.None? then None else Some(([s[0]] + r.value.0, r.value.1))
    else if |s| > 1 && s[1] == '\'' then
      var r := ReadQuoted(s[2..]);
      if r.None? then None else Some((['\''] + r.value.0, r.value.1))
    else Some(("", s[1..]))
  }

  /** Length of the longest word at the front. */
  function Run(s: string): (n: nat)
    ensures n <= |s|
  {
    if s != "" && WordChar(s[0]) then 1 + Run(s[1..]) else 0
  }

  predicate SymChar(c: char) {
    c in "=!<>"
  }

  function Lex(s: string): seq<Token>
    decreases |s|
  {
    if s == "" then []
    else if s[0] == ' ' then Lex(s[1..])
    else if s[0] == '(' then [LParen] + Lex(s[1..])
    else if s[0] == ')' then [RParen] + Lex(s[1..])
    else if s[0] == ',' then [Comma] + Lex(s[1..])
    else if SymChar(s[0]) then [Sym(s[0])] + Lex(s[1..])
    else if s[0] == '\'' then
      var r := ReadQuoted(s[1..]);
      if r.None? then [Bad] else [Str(r.value.0)] + Lex(r.value.1)
    else if WordChar(s[0]) then [Word(s[..Run(s)])] + Lex(s[Run(s)..])
    else [Bad]
  }

  // ------------------------------------------------- reading: trees

  type Parsed<T> = Option<(T, seq<Token>)>

  predicate StartsWithWord(ts: seq<Token>, w: string) {
    ts != [] && ts[0] == Word(w)
  }

  function ParseOperand(ts: seq<Token>): (r: Parsed<Operand>)
    ensures r.Some? ==> |r.value.1| < |ts|
  {
    if ts == [] then None
    else match ts[0]
      case Str(s) => Some((Quoted(s), ts[1..]))
      case Word(w) => Some((Number(w), ts[1..]))
      case _ => None
  }

  function ParseOp(ts: seq<Token>): (r: Parsed<SqlOp>)
    ensures r.Some? ==> |r.value.1| < |ts|
  {
    if ts == [] then None
    else if ts[0] == Word("LIKE") then Some((LikeOp, ts[1..]))
    else if ts[0] == Sym('=') then Some((Eq, ts[1..]))
    else if |ts| > 1 && ts[1] == Sym('=') && ts[0] == Sym('!') then Some((Ne, ts[2..]))
    else if |ts| > 1 && ts[1] == Sym('=') && ts[0] == Sym('>') then Some((Ge, ts[2..]))
    else if |ts| > 1 && ts[1] == Sym('=') && ts[0] == Sym('<') then Some((Le, ts[2..]))
    else if ts[0] == Sym('>') then Some((Gt, ts[1..]))
    else if ts[0] == Sym('<') then Some((Lt, ts[1..]))
    else None
  }

  function ParseContains(ts: seq<Token>): (r: Parsed<Atom>)
    ensures r.Some? ==> |r.value.1| < |ts|
  {
    if |ts| < 6 || ts[1] != LParen || ts[2] != Word(FIELDS) || ts[3] != Comma || !ts[4].Str? || ts[5] != Comma then None else
    var x := ParseOperand(ts[6..]);
    if x.None? || x.value.1 == [] || x.value.1[0] != RParen then None
    else Some((Contains(ts[4].s, x.value.0), x.value.1[1..]))
  }

  function ParseExtracted(ts: seq<Token>, double: bool): (r: Parsed<Atom>)
    ensures r.Some? ==> |r.value.1| < |ts|
  {
    if |ts| < 6 || ts[1] != LParen || ts[2] != Word(FIELDS) || ts[3] != Comma || !ts[4].Str? || ts[5] != RParen then None else
    var op := ParseOp(ts[6..]);
    if op.None? then None else
    var x := ParseOperand(op.value.1);
    if x.None? then None else Some((Extracted(double, ts[4].s, op.value.0, x.value.0), x.value.1))
  }

  function ParseAtom(ts: seq<Token>): (r: Parsed<Atom>)
    ensures r.Some? ==> |r.value.1| < |ts|
  {
    if StartsWithWord(ts, CONTAINS) then ParseContains(ts)
    else if StartsWithWord(ts, DOUBLE) then ParseExtracted(ts, true)
    else if StartsWithWord(ts, STRING) then ParseExtracted(ts, false)
    else if |ts| >= 3 && ts[..3] == [Word("1"), Sym('='), Word("1")] then Some((OneIsOne, ts[3..]))
    else None
  }

  function ParseUnit(ts: seq<Token>): (r: Parsed<Expr>)
    ensures r.Some? ==> |r.value.1| < |ts|
    decreases |ts|, 0
  {
    if ts == [] then None
    else if ts[0] == Word("NOT") then
      var u := ParseUnit(ts[1..]);
      if u.None? then None else Some((Neg(u.value.0), u.value.1))
    else if ts[0] == LParen then
      var e := ParseOr(ts[1..]);
      if e.None? || e.value.1 == [] || e.value.1[0] != RParen then None
      else Some((Disj(e.value.0), e.value.1[1..]))
    else
      var a := ParseAtom(ts);
      if a.None? then None else Some((Leaf(a.value.0), a.value.1))
  }

  function ParseAnd(ts: seq<Token>): (r: Parsed<seq<Expr>>)
    ensures r.Some? ==> |r.value.1| < |ts|
    decreases |ts|, 1
  {
    var u := ParseUnit(ts);
    if u.None? then None
    else if !StartsWithWord(u.value.1, "AND") then Some(([u.value.0], u.value.1))
    else
      var more := ParseAnd(u.value.1[1..]);
      if more.None? then None else Some(([u.value.0] + more.value.0, more.value.1))
  }

  function ParseOr(ts: seq<Token>): (r: Parsed<seq<Expr>>)
    ensures r.Some? ==> |r.value.1| < |ts|
    decreases |ts|, 2
  {
    var c := ParseAnd(ts);
    if c.None? then None
    else if !StartsWithWord(c.value.1, "OR") then Some(([Conj(c.value.0)], c.value.1))
    else
      var more := ParseOr(c.value.1[1..]);
      if more.None? then None else Some(([Conj(c.value.0)] + more.value.0, more.value.1))
  }

  /** Reads a whole text. */
  function Read(s: string): Option<Expr> {
    var e := ParseOr(Lex(s));
    if e.None? || e.value.1 != [] then None else Some(Disj(e.value.0))
  }
}
