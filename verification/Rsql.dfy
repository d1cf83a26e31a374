/** The RSQL filter language: the cursor-based parser of `src/query/rsql.rs`, its functional
    reading, and a printer that the parser inverts. */
module Rsql {
  import opened Prelude

  datatype RsqlOp =
    | Eq | Neq | Gt | Ge | Lt | Le | In | Out | Like | Ilike
    | Contains | Starts | Ends | Between
    | Null(isNull: bool)

  datatype FilterNode =
    | And(children: seq<FilterNode>)
    | Or(children: seq<FilterNode>)
    | Leaf(field: string, op: RsqlOp, values: seq<string>)

  datatype ParseError =
    | EmptyExpression
    | UnexpectedToken(pos: nat)
    | ExpectedClose(pos: nat)
    | ExpectedField(pos: nat)
    | ExpectedOperator(pos: nat)
    | UnterminatedOperator(pos: nat)
    | UnknownOperator(name: string, pos: nat)
    | ExpectedOpen(pos: nat)
    | ExpectedCommaOrClose(pos: nat)
    | UnterminatedQuote(pos: nat)
    | NullNeedsBool(text: string)

  /** Outcome of reading from a position: a value and the next position, or an error. */
  datatype Step<+T> = Good(value: T, next: nat) | Bad(error: ParseError)

  // ---------------------------------------------------------------- characters

  /** `char::is_ascii_alphanumeric` or an underscore. */
  predicate IdentChar(c: char) {
    'a' <= c <= 'z' || 'A' <= c <= 'Z' || '0' <= c <= '9' || c == '_'
  }

  /** The four characters that end an unquoted value. */
  predicate Special(c: char) {
    c == ',' || c == ';' || c == '(' || c == ')'
  }

  /** Unicode White_Space, which is what `str::trim` removes. */
  predicate White(c: char) {
    var n := c as int;
    9 <= n <= 13 || n == 32 || n == 0x85 || n == 0xA0 || n == 0x1680 || 0x2000 <= n <= 0x200A
    || n == 0x2028 || n == 0x2029 || n == 0x202F || n == 0x205F || n == 0x3000
  }

  /** Lower-casing restricted to ASCII. No other character lower-cases to a letter of "true" or
      "false", so the comparison made with it is the original's. */
  function Lower(s: string): string {
    seq(|s|, i requires 0 <= i < |s| => LowerChar(s[i]))
  }

  function LowerChar(c: char): char {
    if 'A' <= c <= 'Z' then (c as int + 32) as char else c
  }

  function TrimEnd(s: string): (t: string)
    ensures t <= s
    ensures t != "" ==> !White(t[|t| - 1])
  {
    if s != "" && White(s[|s| - 1]) then TrimEnd(s[..|s| - 1]) else s
  }

  function Trim(s: string): string {
    TrimEnd(s[SkipWhile(s, 0, White)..])
  }

  lemma TrimKeeps(s: string)
    requires s != "" && !White(s[0]) && !White(s[|s| - 1])
    ensures Trim(s) == s
  {
    assert SkipWhile(s, 0, White) == 0;
    assert s[0..] == s;
  }

  // ---------------------------------------------------------------- well-formed trees

  /** A value the syntax can carry: between quotes, or bare. */
  predicate Writable(v: string) {
    '"' !in v || (v[0] != '"' && forall i :: 0 <= i < |v| ==> !Special(v[i]))
  }

  predicate TakesList(op: RsqlOp) {
    op.In? || op.Out? || op.Between?
  }

  predicate CountOk(op: RsqlOp, n: nat) {
    if op.Null? then n == 0 else if TakesList(op) then n >= 1 else n == 1
  }

  predicate FieldOk(field: string) {
    field != "" && forall i :: 0 <= i < |field| ==> IdentChar(field[i])
  }

  predicate WellFormed(t: FilterNode) {
    match t
    case And(cs) => |cs| >= 2 && forall i :: 0 <= i < |cs| ==> WellFormed(cs[i])
    case Or(cs) => |cs| >= 2 && forall i :: 0 <= i < |cs| ==> WellFormed(cs[i])
    case Leaf(field, op, values) =>
      && FieldOk(field)
      && CountOk(op, |values|)
      && forall i :: 0 <= i < |values| ==> Writable(values[i])
  }

  // ---------------------------------------------------------------- the language, by position

  function Selector(s: string, pos: nat): (r: Step<string>)
    requires pos <= |s|
    ensures r.Good? ==> pos < r.next <= |s| && FieldOk(r.value)
  {
    var e := SkipWhile(s, pos, IdentChar);
    if e == pos then Bad(ExpectedField(pos)) else Good(s[pos..e], e)
  }

  function NamedOp(name: string): Option<RsqlOp> {
    if name == "gt" then Some(Gt)
    else if name == "ge" then Some(Ge)
    else if name == "lt" then Some(Lt)
    else if name == "le" then Some(Le)
    else if name == "in" then Some(In)
    else if name == "out" then Some(Out)
    else if name == "like" then Some(Like)
    else if name == "ilike" then Some(Ilike)
    else if name == "contains" then Some(Contains)
    else if name == "starts" then Some(Starts)
    else if name == "ends" then Some(Ends)
    else if name == "between" then Some(Between)
    else if name == "null" then Some(Null(true))
    else None
  }

  predicate NotEquals(c: char) { c != '=' }

  predicate NotQuote(c: char) { c != '"' }

  predicate Plain(c: char) { !Special(c) }

  function Operator(s: string, pos: nat): (r: Step<RsqlOp>)
    requires pos <= |s|
    ensures r.Good? ==> pos < r.next <= |s|
  {
    if pos + 2 <= |s| && s[pos..pos + 2] == "==" then Good(Eq, pos + 2)
    else if pos + 2 <= |s| && s[pos..pos + 2] == "!=" then Good(Neq, pos + 2)
    else if pos < |s| && s[pos] == '=' then
      var e := SkipWhile(s, pos + 1, NotEquals);
      if e == |s| then Bad(UnterminatedOperator(e))
      else
        var name := s[pos + 1..e];
        match NamedOp(name)
        case Some(op) => Good(op, e + 1)
        case None => Bad(UnknownOperator(name, e + 1))
    else Bad(ExpectedOperator(pos))
  }

  function Value(s: string, pos: nat): (r: Step<string>)
    requires pos <= |s|
    ensures r.Good? ==> pos <= r.next <= |s| && Writable(r.value)
  {
    if pos < |s| && s[pos] == '"' then
      var e := SkipWhile(s, pos + 1, NotQuote);
      if e == |s| then Bad(UnterminatedQuote(e)) else Good(s[pos + 1..e], e + 1)
    else
      var e := SkipWhile(s, pos, Plain);
      Good(s[pos..e], e)
  }

  /** The values of a list operator, from after the opening parenthesis or a comma. */
  function ValueList(s: string, pos: nat, acc: seq<string>): (r: Step<seq<string>>)
    requires pos <= |s|
    ensures r.Good? ==> pos < r.next <= |s| && |acc| < |r.value| && acc <= r.value
    ensures r.Good? ==> forall i :: |acc| <= i < |r.value| ==> Writable(r.value[i])
    decreases |s| - pos
  {
    match Value(s, pos)
    case Bad(e) => Bad(e)
    case Good(v, n) =>
      if n < |s| && s[n] == ',' then ValueList(s, n + 1, acc + [v])
      else if n < |s| && s[n] == ')' then Good(acc + [v], n + 1)
      else Bad(ExpectedCommaOrClose(n))
  }

  function Arguments(s: string, pos: nat, op: RsqlOp): (r: Step<seq<string>>)
    requires pos <= |s|
    ensures r.Good? ==> pos <= r.next <= |s| && (!op.Null? ==> CountOk(op, |r.value|))
    ensures r.Good? ==> forall i :: 0 <= i < |r.value| ==> Writable(r.value[i])
  {
    if TakesList(op) then
      if pos < |s| && s[pos] == '(' then ValueList(s, pos + 1, []) else Bad(ExpectedOpen(pos))
    else
      match Value(s, pos)
      case Bad(e) => Bad(e)
      case Good(v, n) => Good([v], n)
  }

  function LeafAt(s: string, pos: nat): (r: Step<FilterNode>)
    requires pos <= |s|
    ensures r.Good? ==> pos < r.next <= |s| && WellFormed(r.value)
  {
    match Selector(s, pos)
    case Bad(e) => Bad(e)
    case Good(field, n) =>
      match Operator(s, n)
      case Bad(e) => Bad(e)
      case Good(op, m) =>
        if op.Null? then
          match Value(s, m)
          case Bad(e) => Bad(e)
          case Good(raw, k) =>
            if Lower(raw) == "true" then Good(Leaf(field, Null(true), []), k)
            else if Lower(raw) == "false" then Good(Leaf(field, Null(false), []), k)
            else Bad(NullNeedsBool(Lower(raw)))
        else
          match Arguments(s, m, op)
          case Bad(e) => Bad(e)
          case Good(values, k) => Good(Leaf(field, op, values), k)
  }

  /** atom = '(' expression ')' | leaf */
  function AtomAt(s: string, pos: nat): (r: Step<FilterNode>)
    requires pos <= |s|
    ensures r.Good? ==> pos < r.next <= |s| && WellFormed(r.value)
    decreases |s| - pos, 1
  {
    if pos < |s| && s[pos] == '(' then
      match OrAt(s, pos + 1)
      case Bad(e) => Bad(e)
      case Good(t, n) => if n < |s| && s[n] == ')' then Good(t, n + 1) else Bad(ExpectedClose(n))
    else LeafAt(s, pos)
  }

  /** and_expr = atom (';' atom)* */
  function AndAt(s: string, pos: nat): (r: Step<FilterNode>)
    requires pos <= |s|
    ensures r.Good? ==> pos < r.next <= |s| && WellFormed(r.value)
    decreases |s| - pos, 2
  {
    match AtomAt(s, pos)
    case Bad(e) => Bad(e)
    case Good(first, n) => AndRest(s, n, [first])
  }

  function AndRest(s: string, pos: nat, parts: seq<FilterNode>): (r: Step<FilterNode>)
    requires pos <= |s| && |parts| >= 1 && forall i :: 0 <= i < |parts| ==> WellFormed(parts[i])
    ensures r.Good? ==> pos <= r.next <= |s| && WellFormed(r.value)
    decreases |s| - pos, 0
  {
    if pos < |s| && s[pos] == ';' then
      match AtomAt(s, pos + 1)
      case Bad(e) => Bad(e)
      case Good(t, n) => AndRest(s, n, parts + [t])
    else if |parts| == 1 then Good(parts[0], pos)
    else Good(And(parts), pos)
  }

  /** or_expr = and_expr (',' and_expr)* */
  function OrAt(s: string, pos: nat): (r: Step<FilterNode>)
    requires pos <= |s|
    ensures r.Good? ==> pos < r.next <= |s| && WellFormed(r.value)
    decreases |s| - pos, 3
  {
    match AndAt(s, pos)
    case Bad(e) => Bad(e)
    case Good(first, n) => OrRest(s, n, [first])
  }

  function OrRest(s: string, pos: nat, parts: seq<FilterNode>): (r: Step<FilterNode>)
    requires pos <= |s| && |parts| >= 1 && forall i :: 0 <= i < |parts| ==> WellFormed(parts[i])
    ensures r.Good? ==> pos <= r.next <= |s| && WellFormed(r.value)
    decreases |s| - pos, 0
  {
    if pos < |s| && s[pos] == ',' then
      match AndAt(s, pos + 1)
      case Bad(e) => Bad(e)
      case Good(t, n) => OrRest(s, n, parts + [t])
    else if |parts| == 1 then Good(parts[0], pos)
    else Good(Or(parts), pos)
  }

  /** What `parse_rsql` computes, as a function of its input. */
  function Parse(input: string): (r: Result<FilterNode, ParseError>)
    ensures r.Ok? ==> WellFormed(r.value)
  {
    var s := Trim(input);
    if s == "" then Err(EmptyExpression)
    else
      match OrAt(s, 0)
      case Bad(e) => Err(e)
      case Good(t, n) => if n < |s| then Err(UnexpectedToken(n)) else Ok(t)
  }

  // ---------------------------------------------------------------- the cursor parser

  class Parser {
    const chars: string
    var pos: nat

    ghost predicate Valid()
      reads this
    {
      pos <= |chars|
    }

    /** The outcome and the new cursor are those of the functional reading. */
    ghost predicate Agrees<T(!new)>(r: Result<T, ParseError>, f: Step<T>)
      reads this
    {
      && Valid()
      && match f
         case Good(v, n) => r == Ok(v) && pos == n
         case Bad(e) => r == Err(e)
    }

    constructor (input: string)
      ensures chars == input && pos == 0
    {
      chars := input;
      pos := 0;
    }

    method Peek() returns (c: Option<char>)
      requires Valid()
      ensures c == if pos < |chars| then Some(chars[pos]) else None
    {
      c := if pos < |chars| then Some(chars[pos]) else None;
    }

    method ParseOr() returns (r: Result<FilterNode, ParseError>)
      requires Valid()
      modifies this`pos
      ensures Agrees(r, OrAt(chars, old(pos)))
      decreases |chars| - pos, 3
    {
      hide WellFormed, AndAt;
      ghost var goal := OrAt(chars, pos);
      ghost var start := pos;
      var first := ParseAnd();
      if first.Err? { return first; }
      var parts := [first.value];
      var c := Peek();
      while c == Some(',')
        invariant Valid() && start < pos
        invariant c == if pos < |chars| then Some(chars[pos]) else None
        invariant |parts| >= 1 && forall i :: 0 <= i < |parts| ==> WellFormed(parts[i])
        invariant goal == OrRest(chars, pos, parts)
        decreases |chars| - pos
      {
        pos := pos + 1;
        var t := ParseAnd();
        if t.Err? { return t; }
        parts := parts + [t.value];
        c := Peek();
      }
      r := Ok(if |parts| == 1 then parts[0] else Or(parts));
    }

    method ParseAnd() returns (r: Result<FilterNode, ParseError>)
      requires Valid()
      modifies this`pos
      ensures Agrees(r, AndAt(chars, old(pos)))
      decreases |chars| - pos, 2
    {
      hide WellFormed, LeafAt, AtomAt;
      ghost var goal := AndAt(chars, pos);
      ghost var start := pos;
      var first := ParseAtom();
      if first.Err? { return first; }
      var parts := [first.value];
      var c := Peek();
      while c == Some(';')
        invariant Valid() && start < pos
        invariant c == if pos < |chars| then Some(chars[pos]) else None
        invariant |parts| >= 1 && forall i :: 0 <= i < |parts| ==> WellFormed(parts[i])
        invariant goal == AndRest(chars, pos, parts)
        decreases |chars| - pos
      {
        pos := pos + 1;
        var t := ParseAtom();
        if t.Err? { return t; }
        parts := parts + [t.value];
        c := Peek();
      }
      r := Ok(if |parts| == 1 then parts[0] else And(parts));
    }

    method ParseAtom() returns (r: Result<FilterNode, ParseError>)
      requires Valid()
      modifies this`pos
      ensures Agrees(r, AtomAt(chars, old(pos)))
      decreases |chars| - pos, 1
    {
      var c := Peek();
      if c == Some('(') {
        pos := pos + 1;
        r := ParseOr();
        if r.Err? { return; }
        c := Peek();
        if c != Some(')') { return Err(ExpectedClose(pos)); }
        pos := pos + 1;
      } else {
        r := ParseLeaf();
      }
    }

    method ParseLeaf() returns (r: Result<FilterNode, ParseError>)
      requires Valid()
      modifies this`pos
      ensures Agrees(r, LeafAt(chars, old(pos)))
    {
      var field := ParseSelector();
      if field.Err? { return Err(field.error); }
      var op := ParseOperator();
      if op.Err? { return Err(op.error); }
      if op.value.Null? {
        var raw := ParseValue();
        if raw.Err? { return Err(raw.error); }
        var text := Lower(raw.value);
        if text == "true" { return Ok(Leaf(field.value, Null(true), [])); }
        if text == "false" { return Ok(Leaf(field.value, Null(false), [])); }
        return Err(NullNeedsBool(text));
      }
      var values := ParseArguments(op.value);
      if values.Err? { return Err(values.error); }
      r := Ok(Leaf(field.value, op.value, values.value));
    }

    method ParseSelector() returns (r: Result<string, ParseError>)
      requires Valid()
      modifies this`pos
      ensures Agrees(r, Selector(chars, old(pos)))
    {
      var start := pos;
      while pos < |chars| && IdentChar(chars[pos])
        invariant start <= pos <= |chars|
        invariant SkipWhile(chars, start, IdentChar) == SkipWhile(chars, pos, IdentChar)
      {
        pos := pos + 1;
      }
      if pos == start { return Err(ExpectedField(pos)); }
      r := Ok(chars[start..pos]);
    }

    method ParseOperator() returns (r: Result<RsqlOp, ParseError>)
      requires Valid()
      modifies this`pos
      ensures Agrees(r, Operator(chars, old(pos)))
    {
      var two := if pos + 2 <= |chars| then chars[pos..pos + 2] else "";
      if two == "==" { pos := pos + 2; return Ok(Eq); }
      if two == "!=" { pos := pos + 2; return Ok(Neq); }
      if pos < |chars| && chars[pos] == '=' {
        pos := pos + 1;
        var start := pos;
        while pos < |chars| && chars[pos] != '='
          invariant start <= pos <= |chars|
          invariant SkipWhile(chars, start, NotEquals) == SkipWhile(chars, pos, NotEquals)
        {
          pos := pos + 1;
        }
        if pos == |chars| { return Err(UnterminatedOperator(pos)); }
        var name := chars[start..pos];
        pos := pos + 1;
        match NamedOp(name)
        case Some(op) => return Ok(op);
        case None => return Err(UnknownOperator(name, pos));
      }
      r := Err(ExpectedOperator(pos));
    }

    method ParseArguments(op: RsqlOp) returns (r: Result<seq<string>, ParseError>)
      requires Valid()
      modifies this`pos
      ensures Agrees(r, Arguments(chars, old(pos), op))
    {
      if TakesList(op) {
        var c := Peek();
        if c != Some('(') { return Err(ExpectedOpen(pos)); }
        pos := pos + 1;
        r := ParseValues();
      } else {
        var v := ParseValue();
        if v.Err? { return Err(v.error); }
        r := Ok([v.value]);
      }
    }

    /** The loop of `parse_arguments` over the values of a list. */
    method ParseValues() returns (r: Result<seq<string>, ParseError>)
      requires Valid()
      modifies this`pos
      ensures Agrees(r, ValueList(chars, old(pos), []))
    {
      ghost var goal := ValueList(chars, pos, []);
      var values := [];
      while true
        invariant Valid()
        invariant goal == ValueList(chars, pos, values)
        decreases |chars| - pos
      {
        var v := ParseValue();
        if v.Err? { return Err(v.error); }
        values := values + [v.value];
        if pos < |chars| && chars[pos] == ',' {
          pos := pos + 1;
        } else if pos < |chars| && chars[pos] == ')' {
          pos := pos + 1;
          return Ok(values);
        } else {
          return Err(ExpectedCommaOrClose(pos));
        }
      }
    }

    method ParseValue() returns (r: Result<string, ParseError>)
      requires Valid()
      modifies this`pos
      ensures Agrees(r, Value(chars, old(pos)))
    {
      var c := Peek();
      if c == Some('"') {
        pos := pos + 1;
        r := ParseQuoted();
        return;
      }
      var start := pos;
      while pos < |chars| && !Special(chars[pos])
        invariant start <= pos <= |chars|
        invariant SkipWhile(chars, start, Plain) == SkipWhile(chars, pos, Plain)
      {
        pos := pos + 1;
      }
      r := Ok(chars[start..pos]);
    }

    /** The loop of `parse_value` over a quoted value, from after its opening quote. */
    method ParseQuoted() returns (r: Result<string, ParseError>)
      requires Valid()
      modifies this`pos
      ensures var e := SkipWhile(chars, old(pos), NotQuote);
              Agrees(r, if e == |chars| then Bad(UnterminatedQuote(e)) else Good(chars[old(pos)..e], e + 1))
    {
      var start := pos;
      var val := "";
      while true
        invariant start <= pos <= |chars|
        invariant val == chars[start..pos]
        invariant SkipWhile(chars, start, NotQuote) == SkipWhile(chars, pos, NotQuote)
        decreases |chars| - pos
      {
        var c := Peek();
        match c
        case None => return Err(UnterminatedQuote(pos));
        case Some(d) =>
          if d == '"' {
            pos := pos + 1;
            return Ok(val);
          }
          val := val + [d];
          pos := pos + 1;
      }
    }
  }

  /** `parse_rsql`: total on every input, and only ever a well-formed tree. */
  method ParseRsql(input: string) returns (r: Result<FilterNode, ParseError>)
    ensures r == Parse(input)
    ensures r.Ok? ==> WellFormed(r.value)
  {
    var trimmed := Trim(input);
    if trimmed == "" { return Err(EmptyExpression); }
    var p := new Parser(trimmed);
    r := p.ParseOr();
    if r.Ok? && p.pos < |p.chars| {
      r := Err(UnexpectedToken(p.pos));
    }
  }
}
