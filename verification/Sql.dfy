/** A small SQL reader for WHERE texts: a lexer on characters, a grammar in which AND binds
    tighter than OR and `BETWEEN x AND y` is one predicate, and three-valued evaluation. It knows
    nothing about the program that writes the texts. */
module Sql {
  import opened Prelude
  import Like

  // ---------------------------------------------------------------- lexer

  datatype Token =
    | Word(text: string) | Param(n: nat) | LParen | RParen | Comma | Cast
    | Cmp(op: string) | Lit(text: string) | Junk

  predicate WordChar(c: char) {
    'a' <= c <= 'z' || 'A' <= c <= 'Z' || '0' <= c <= '9' || c == '_' || c == '.'
  }

  predicate Digit(c: char) { '0' <= c <= '9' }

  predicate NotTick(c: char) { c != '\'' }

  predicate AllDigits(s: string) { forall i :: 0 <= i < |s| ==> Digit(s[i]) }

  function Number(s: string): nat
    requires AllDigits(s)
  {
    if s == "" then 0 else 10 * Number(s[..|s| - 1]) + (s[|s| - 1] as int - '0' as int)
  }

  /** The token at the front of a text, if its first character is not a space, and its length. */
  function LexOne(s: string): (r: (seq<Token>, nat))
    requires s != ""
    ensures 1 <= r.1 <= |s|
  {
    var c := s[0];
    if c == ' ' then ([], 1)
    else if c == '(' then ([LParen], 1)
    else if c == ')' then ([RParen], 1)
    else if c == ',' then ([Comma], 1)
    else if WordChar(c) then
      var e := SkipWhile(s, 1, WordChar);
      ([Word(s[..e])], e)
    else if c == '$' then
      var e := SkipWhile(s, 1, Digit);
      ([if e == 1 then Junk else Param(Number(s[1..e]))], e)
    else if c == '\'' then
      var e := SkipWhile(s, 1, NotTick);
      if e == |s| then ([Junk], e) else ([Lit(s[1..e])], e + 1)
    else if c == ':' && 1 < |s| && s[1] == ':' then ([Cast], 2)
    else if c == '=' then ([Cmp("=")], 1)
    else if (c == '!' || c == '<' || c == '>') && 1 < |s| && s[1] == '=' then ([Cmp([c, '='])], 2)
    else if c == '<' || c == '>' then ([Cmp([c])], 1)
    else ([Junk], 1)
  }

  function Lex(s: string): seq<Token> {
    if s == "" then [] else var (t, n) := LexOne(s); t + Lex(s[n..])
  }

  // ---------------------------------------------------------------- grammar

  datatype Operand = ParamRef(n: nat, cast: Option<string>) | TextLit(text: string)

  datatype Predicate =
    | Compare(col: string, op: string, rhs: Operand)
    | InList(col: string, negated: bool, items: seq<Operand>)
    | Between(col: string, lo: Operand, hi: Operand)
    | Matches(col: string, ignoreCase: bool, rhs: Operand)
    | IsNull(col: string, negated: bool)

  datatype Expr = Pred(p: Predicate) | All(parts: seq<Expr>) | Any(parts: seq<Expr>)

  datatype Read<+T> = Got(value: T, rest: seq<Token>) | Stuck

  predicate Keyword(w: string) {
    w == "AND" || w == "OR" || w == "IS" || w == "NOT" || w == "NULL" || w == "IN"
    || w == "BETWEEN" || w == "LIKE" || w == "ILIKE"
  }

  predicate Starts(ts: seq<Token>, t: Token) { ts != [] && ts[0] == t }

  function ReadOperand(ts: seq<Token>): (r: Read<Operand>)
    ensures r.Got? ==> |r.rest| < |ts|
  {
    if ts == [] then Stuck
    else match ts[0]
      case Lit(t) => Got(TextLit(t), ts[1..])
      case Param(n) =>
        if !Starts(ts[1..], Cast) then Got(ParamRef(n, None), ts[1..])
        else if |ts| >= 4 && ts[2] == Word("double") && ts[3] == Word("precision") then
          Got(ParamRef(n, Some("double precision")), ts[4..])
        else if |ts| >= 3 && ts[2].Word? then Got(ParamRef(n, Some(ts[2].text)), ts[3..])
        else Stuck
      case _ => Stuck
  }

  /** A comma-separated list up to its closing parenthesis. */
  function ReadOperands(ts: seq<Token>, acc: seq<Operand>): (r: Read<seq<Operand>>)
    ensures r.Got? ==> |r.rest| < |ts|
    decreases |ts|
  {
    match ReadOperand(ts)
    case Stuck => Stuck
    case Got(o, rest) =>
      if Starts(rest, Comma) then ReadOperands(rest[1..], acc + [o])
      else if Starts(rest, RParen) then Got(acc + [o], rest[1..])
      else Stuck
  }

  function ReadPredicate(ts: seq<Token>): (r: Read<Predicate>)
    ensures r.Got? ==> |r.rest| < |ts|
  {
    if |ts| < 2 || !ts[0].Word? || Keyword(ts[0].text) then Stuck
    else ReadTest(ts[0].text, ts[1..])
  }

  /** What follows the column of a predicate. */
  function ReadTest(col: string, ts: seq<Token>): (r: Read<Predicate>)
    requires ts != []
    ensures r.Got? ==> |r.rest| < |ts|
  {
    if ts[0].Cmp? then
      match ReadOperand(ts[1..])
      case Stuck => Stuck
      case Got(o, rest) => Got(Compare(col, ts[0].op, o), rest)
    else if ts[0] == Word("LIKE") || ts[0] == Word("ILIKE") then
      match ReadOperand(ts[1..])
      case Stuck => Stuck
      case Got(o, rest) => Got(Matches(col, ts[0] == Word("ILIKE"), o), rest)
    else if ts[0] == Word("BETWEEN") then
      match ReadOperand(ts[1..])
      case Stuck => Stuck
      case Got(lo, rest) =>
        if !Starts(rest, Word("AND")) then Stuck
        else
          match ReadOperand(rest[1..])
          case Stuck => Stuck
          case Got(hi, rest') => Got(Between(col, lo, hi), rest')
    else if ts[0] == Word("IS") && Starts(ts[1..], Word("NULL")) then Got(IsNull(col, false), ts[2..])
    else if ts[0] == Word("IS") && |ts| >= 3 && ts[1] == Word("NOT") && ts[2] == Word("NULL") then
      Got(IsNull(col, true), ts[3..])
    else if ts[0] == Word("IN") && Starts(ts[1..], LParen) then
      match ReadOperands(ts[2..], [])
      case Stuck => Stuck
      case Got(os, rest) => Got(InList(col, false, os), rest)
    else if ts[0] == Word("NOT") && |ts| >= 3 && ts[1] == Word("IN") && ts[2] == LParen then
      match ReadOperands(ts[3..], [])
      case Stuck => Stuck
      case Got(os, rest) => Got(InList(col, true, os), rest)
    else Stuck
  }

  /** primary = '(' or_expr ')' | predicate */
  function ReadPrimary(ts: seq<Token>): (r: Read<Expr>)
    ensures r.Got? ==> |r.rest| < |ts|
    decreases |ts|, 0
  {
    if Starts(ts, LParen) then
      match ReadOr(ts[1..])
      case Stuck => Stuck
      case Got(e, rest) => if Starts(rest, RParen) then Got(e, rest[1..]) else Stuck
    else
      match ReadPredicate(ts)
      case Stuck => Stuck
      case Got(p, rest) => Got(Pred(p), rest)
  }

  /** and_expr = primary (AND primary)* */
  function ReadAnd(ts: seq<Token>): (r: Read<Expr>)
    ensures r.Got? ==> |r.rest| < |ts|
    decreases |ts|, 1
  {
    match ReadPrimary(ts)
    case Stuck => Stuck
    case Got(e, rest) => ReadAndRest(rest, [e])
  }

  function ReadAndRest(ts: seq<Token>, acc: seq<Expr>): (r: Read<Expr>)
    requires acc != []
    ensures r.Got? ==> |r.rest| <= |ts|
    decreases |ts|, 0
  {
    if Starts(ts, Word("AND")) then
      match ReadPrimary(ts[1..])
      case Stuck => Stuck
      case Got(e, rest) => ReadAndRest(rest, acc + [e])
    else Got(if |acc| == 1 then acc[0] else All(acc), ts)
  }

  /** or_expr = and_expr (OR and_expr)* */
  function ReadOr(ts: seq<Token>): (r: Read<Expr>)
    ensures r.Got? ==> |r.rest| < |ts|
    decreases |ts|, 2
  {
    match ReadAnd(ts)
    case Stuck => Stuck
    case Got(e, rest) => ReadOrRest(rest, [e])
  }

  function ReadOrRest(ts: seq<Token>, acc: seq<Expr>): (r: Read<Expr>)
    requires acc != []
    ensures r.Got? ==> |r.rest| <= |ts|
    decreases |ts|, 0
  {
    if Starts(ts, Word("OR")) then
      match ReadAnd(ts[1..])
      case Stuck => Stuck
      case Got(e, rest) => ReadOrRest(rest, acc + [e])
    else Got(if |acc| == 1 then acc[0] else Any(acc), ts)
  }

  /** A whole WHERE text. */
  function ReadWhere(text: string): Option<Expr> {
    match ReadOr(Lex(text))
    case Got(e, rest) => if rest == [] then Some(e) else None
    case Stuck => None
  }

  // ---------------------------------------------------------------- three-valued evaluation

  datatype Truth = True | False | Unknown

  /** Column values: text, or a value of another type as the database represents it. */
  datatype Val = Text(s: string) | Other(n: int)

  /** What the database supplies: how bound text is cast, and the order of its values. */
  datatype Db = Db(cast: (string, string) -> Val, less: (Val, Val) -> bool)

  /** Columns absent from the map are NULL. */
  type Row = map<string, Val>

  function Column(row: Row, col: string): Option<Val> {
    if col in row then Some(row[col]) else None
  }

  function BindVal(db: Db, cast: Option<string>, text: string): Val {
    match cast
    case None => Text(text)
    case Some(t) => db.cast(t, text)
  }

  function OperandVal(db: Db, binds: seq<string>, o: Operand): Option<Val> {
    match o
    case TextLit(t) => Some(Text(t))
    case ParamRef(n, cast) =>
      if 1 <= n <= |binds| then Some(BindVal(db, cast, binds[n - 1])) else None
  }

  function Lift(b: bool): Truth { if b then True else False }

  function Not3(t: Truth): Truth {
    match t case True => False case False => True case Unknown => Unknown
  }

  function And3(a: Truth, b: Truth): Truth {
    if a == False || b == False then False else if a == Unknown || b == Unknown then Unknown else True
  }

  function Or3(a: Truth, b: Truth): Truth { Not3(And3(Not3(a), Not3(b))) }

  predicate CompareVals(db: Db, op: string, x: Val, y: Val) {
    if op == "=" then x == y
    else if op == "!=" then x != y
    else if op == "<" then db.less(x, y)
    else if op == "<=" then x == y || db.less(x, y)
    else if op == ">" then db.less(y, x)
    else if op == ">=" then x == y || db.less(y, x)
    else false
  }

  function Compare3(db: Db, op: string, x: Option<Val>, y: Option<Val>): Truth {
    if x.None? || y.None? then Unknown else Lift(CompareVals(db, op, x.value, y.value))
  }

  /** `x IN (items)` as the disjunction of the equalities. */
  function In3(db: Db, binds: seq<string>, x: Option<Val>, items: seq<Operand>): Truth {
    if items == [] then False
    else Or3(Compare3(db, "=", x, OperandVal(db, binds, items[0])), In3(db, binds, x, items[1..]))
  }

  predicate TextMatches(ignoreCase: bool, x: Val, pattern: Val) {
    x.Text? && pattern.Text?
    && (if ignoreCase then Like.ILike(pattern.s, x.s) else Like.Match(pattern.s, x.s))
  }

  function EvalPred(db: Db, binds: seq<string>, row: Row, p: Predicate): Truth {
    var x := Column(row, p.col);
    match p
    case Compare(_, op, rhs) => Compare3(db, op, x, OperandVal(db, binds, rhs))
    case InList(_, negated, items) =>
      var t := In3(db, binds, x, items);
      if negated then Not3(t) else t
    case Between(_, lo, hi) =>
      And3(Compare3(db, ">=", x, OperandVal(db, binds, lo)), Compare3(db, "<=", x, OperandVal(db, binds, hi)))
    case Matches(_, ignoreCase, rhs) =>
      var y := OperandVal(db, binds, rhs);
      if x.None? || y.None? then Unknown else Lift(TextMatches(ignoreCase, x.value, y.value))
    case IsNull(_, negated) => Lift(x.None? != negated)
  }

  function Eval(db: Db, binds: seq<string>, row: Row, e: Expr): Truth
    decreases e, 0
  {
    match e
    case Pred(p) => EvalPred(db, binds, row, p)
    case All(parts) => EvalAll(db, binds, row, parts)
    case Any(parts) => EvalAny(db, binds, row, parts)
  }

  function EvalAll(db: Db, binds: seq<string>, row: Row, es: seq<Expr>): Truth
    decreases es, 1
  {
    if es == [] then True else And3(Eval(db, binds, row, es[0]), EvalAll(db, binds, row, es[1..]))
  }

  function EvalAny(db: Db, binds: seq<string>, row: Row, es: seq<Expr>): Truth
    decreases es, 1
  {
    if es == [] then False else Or3(Eval(db, binds, row, es[0]), EvalAny(db, binds, row, es[1..]))
  }

  /** WHERE keeps a row only when its condition is true, not when it is unknown. */
  predicate Selected(db: Db, binds: seq<string>, row: Row, e: Expr) {
    Eval(db, binds, row, e) == True
  }
}
