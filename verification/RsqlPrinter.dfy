/** A printer for RSQL trees with the fewest parentheses the grammar allows, and the proof that
    the parser undoes it: `;` binds tighter than `,`, and the range of the parser is exactly the
    well-formed trees. */
module RsqlPrinter {
  import opened Prelude
  import opened Rsql

  function OpName(op: RsqlOp): string {
    match op
    case Gt => "gt" case Ge => "ge" case Lt => "lt" case Le => "le"
    case In => "in" case Out => "out" case Like => "like" case Ilike => "ilike"
    case Contains => "contains" case Starts => "starts" case Ends => "ends"
    case Between => "between" case Null(_) => "null"
    case Eq => "" case Neq => ""
  }

  /** `RsqlOp::display`. */
  function Display(op: RsqlOp): string {
    if op.Eq? then "==" else if op.Neq? then "!=" else "=" + OpName(op) + "="
  }

  function PrintValue(v: string): string {
    if '"' !in v then "\"" + v + "\"" else v
  }

  /** The values after the first, each with its comma. */
  function ValuesTail(vs: seq<string>): string {
    if vs == [] then "" else "," + (PrintValue(vs[0]) + ValuesTail(vs[1..]))
  }

  function PrintArguments(op: RsqlOp, vs: seq<string>): string
    requires CountOk(op, |vs|)
  {
    match op
    case Null(b) => if b then "true" else "false"
    case _ =>
      if TakesList(op) then "(" + (PrintValue(vs[0]) + ValuesTail(vs[1..])) + ")"
      else PrintValue(vs[0])
  }

  function PrintAtom(t: FilterNode): string
    requires WellFormed(t)
    decreases t, 0
  {
    match t
    case Leaf(field, op, vs) => field + (Display(op) + PrintArguments(op, vs))
    case And(cs) => "(" + (PrintAtom(cs[0]) + AtomsTail(cs[1..])) + ")"
    case Or(cs) => "(" + (PrintAnd(cs[0]) + AndsTail(cs[1..])) + ")"
  }

  function AtomsTail(ts: seq<FilterNode>): string
    requires forall i :: 0 <= i < |ts| ==> WellFormed(ts[i])
    decreases ts, 0
  {
    if ts == [] then "" else ";" + (PrintAtom(ts[0]) + AtomsTail(ts[1..]))
  }

  function PrintAnd(t: FilterNode): string
    requires WellFormed(t)
    decreases t, 1
  {
    if t.And? then PrintAtom(t.children[0]) + AtomsTail(t.children[1..]) else PrintAtom(t)
  }

  function AndsTail(ts: seq<FilterNode>): string
    requires forall i :: 0 <= i < |ts| ==> WellFormed(ts[i])
    decreases ts, 0
  {
    if ts == [] then "" else "," + (PrintAnd(ts[0]) + AndsTail(ts[1..]))
  }

  function PrintOr(t: FilterNode): string
    requires WellFormed(t)
  {
    if t.Or? then PrintAnd(t.children[0]) + AndsTail(t.children[1..]) else PrintAnd(t)
  }

  function Print(t: FilterNode): string
    requires WellFormed(t)
  {
    "(" + PrintOr(t) + ")"
  }

  // ---------------------------------------------------------------- positions

  predicate At(s: string, pos: nat, text: string)
    ensures At(s, pos, text) ==> pos + |text| <= |s|
  {
    pos + |text| <= |s| && forall i :: 0 <= i < |text| ==> s[pos + i] == text[i]
  }

  /** A printed piece is always followed by a separator or a closing parenthesis. */
  predicate Stops(s: string, pos: nat) {
    pos < |s| && (s[pos] == ',' || s[pos] == ';' || s[pos] == ')')
  }

  lemma AtSplit(s: string, pos: nat, a: string, b: string)
    requires At(s, pos, a + b)
    ensures At(s, pos, a) && At(s, pos + |a|, b)
  {
    forall i | 0 <= i < |a| ensures s[pos + i] == a[i] {
      assert (a + b)[i] == a[i];
    }
    forall i | 0 <= i < |b| ensures s[pos + |a| + i] == b[i] {
      assert (a + b)[|a| + i] == b[i];
    }
  }

  lemma AtSlice(s: string, pos: nat, text: string)
    requires At(s, pos, text)
    ensures s[pos..pos + |text|] == text
  {
  }

  lemma FirstChar(s: string, pos: nat, text: string)
    requires text != "" && At(s, pos, text)
    ensures s[pos] == text[0]
  {
  }

  lemma ScanText(s: string, pos: nat, text: string, p: char -> bool)
    requires At(s, pos, text)
    requires forall i :: 0 <= i < |text| ==> p(text[i])
    requires pos + |text| < |s| && !p(s[pos + |text|])
    ensures SkipWhile(s, pos, p) == pos + |text| && s[pos..pos + |text|] == text
  {
    AtSlice(s, pos, text);
    forall i | pos <= i < pos + |text| ensures p(s[i]) {
      assert s[i] == text[i - pos];
    }
    SkipWhileStopsAt(s, pos, p, pos + |text|);
  }

  // ---------------------------------------------------------------- leaves

  lemma ValueReads(s: string, pos: nat, v: string)
    requires Writable(v) && At(s, pos, PrintValue(v)) && Stops(s, pos + |PrintValue(v)|)
    ensures Value(s, pos) == Good(v, pos + |PrintValue(v)|)
  {
    hide At;
    if '"' !in v {
      AtSplit(s, pos, "\"" + v, "\"");
      AtSplit(s, pos, "\"", v);
      FirstChar(s, pos, "\"");
      FirstChar(s, pos + 1 + |v|, "\"");
      ScanText(s, pos + 1, v, NotQuote);
    } else {
      FirstChar(s, pos, v);
      ScanText(s, pos, v, Plain);
    }
  }

  lemma {:induction false} ValuesRead(s: string, pos: nat, v: string, vs: seq<string>, acc: seq<string>)
    requires Writable(v) && forall i :: 0 <= i < |vs| ==> Writable(vs[i])
    requires At(s, pos, PrintValue(v)) && At(s, pos + |PrintValue(v)|, ValuesTail(vs))
    requires var e := pos + |PrintValue(v)| + |ValuesTail(vs)|; e < |s| && s[e] == ')'
    ensures ValueList(s, pos, acc) == Good(acc + [v] + vs, pos + |PrintValue(v)| + |ValuesTail(vs)| + 1)
    decreases |vs|
  {
    hide At, PrintValue, ValuesTail, Value, Writable;
    var n := pos + |PrintValue(v)|;
    ValuesTailAt(s, n, vs);
    ValueReads(s, pos, v);
    if vs == [] {
      AppendNil(acc + [v]);
    } else {
      ValuesRead(s, n + 1, vs[0], vs[1..], acc + [v]);
      MoveHead(acc + [v], vs);
    }
  }

  lemma ValuesTailAt(s: string, pos: nat, vs: seq<string>)
    requires At(s, pos, ValuesTail(vs))
    ensures vs == [] ==> ValuesTail(vs) == ""
    ensures vs != [] ==>
              && s[pos] == ','
              && At(s, pos + 1, PrintValue(vs[0]))
              && At(s, pos + 1 + |PrintValue(vs[0])|, ValuesTail(vs[1..]))
              && |ValuesTail(vs)| == 1 + |PrintValue(vs[0])| + |ValuesTail(vs[1..])|
  {
    hide At, PrintValue;
    if vs != [] {
      AtSplit(s, pos, ",", PrintValue(vs[0]) + ValuesTail(vs[1..]));
      AtSplit(s, pos + 1, PrintValue(vs[0]), ValuesTail(vs[1..]));
      FirstChar(s, pos, ",");
    }
  }

  lemma OpNames(op: RsqlOp)
    requires !op.Eq? && !op.Neq?
    ensures '=' !in OpName(op) && OpName(op) != ""
    ensures NamedOp(OpName(op)) == Some(if op.Null? then Null(true) else op)
  {
    match op
    case Gt => case Ge => case Lt => case Le => case In => case Out => case Like =>
    case Ilike => case Contains => case Starts => case Ends => case Between => case Null(_) =>
  }

  lemma OperatorReads(s: string, pos: nat, op: RsqlOp)
    requires At(s, pos, Display(op))
    ensures Operator(s, pos) == Good(if op.Null? then Null(true) else op, pos + |Display(op)|)
    ensures !IdentChar(s[pos])
  {
    if op.Eq? || op.Neq? {
      AtSlice(s, pos, Display(op));
      assert s[pos] == Display(op)[0];
    } else {
      var name := OpName(op);
      OpNames(op);
      AtSplit(s, pos, "=" + name, "=");
      AtSplit(s, pos, "=", name);
      assert s[pos] == "="[0] && s[pos + 1 + |name|] == "="[0];
      ScanText(s, pos + 1, name, NotEquals);
      assert s[pos + 1] == name[0];
      assert s[pos..pos + 2][1] == s[pos + 1];
    }
  }

  lemma NullReads(s: string, pos: nat, b: bool)
    requires var text := if b then "true" else "false"; At(s, pos, text) && Stops(s, pos + |text|)
    ensures var text := if b then "true" else "false"; Value(s, pos) == Good(text, pos + |text|) && Lower(text) == text
  {
    hide At;
    var text := if b then "true" else "false";
    FirstChar(s, pos, text);
    ScanText(s, pos, text, Plain);
  }

  lemma ArgumentsRead(s: string, pos: nat, op: RsqlOp, vs: seq<string>)
    requires !op.Null? && CountOk(op, |vs|) && forall i :: 0 <= i < |vs| ==> Writable(vs[i])
    requires At(s, pos, PrintArguments(op, vs)) && Stops(s, pos + |PrintArguments(op, vs)|)
    ensures Arguments(s, pos, op) == Good(vs, pos + |PrintArguments(op, vs)|)
  {
    hide At, PrintValue, ValuesTail, Value, ValueList, Writable;
    if TakesList(op) {
      var inner := PrintValue(vs[0]) + ValuesTail(vs[1..]);
      Unwrap(s, pos, inner);
      AtSplit(s, pos + 1, PrintValue(vs[0]), ValuesTail(vs[1..]));
      ValuesRead(s, pos + 1, vs[0], vs[1..], []);
      MoveHead([], vs);
      assert [] + vs == vs;
    } else {
      ValueReads(s, pos, vs[0]);
      assert PrintArguments(op, vs) == PrintValue(vs[0]);
      assert [vs[0]] == vs;
    }
  }

  lemma LeafReads(s: string, pos: nat, field: string, op: RsqlOp, vs: seq<string>)
    requires WellFormed(Leaf(field, op, vs))
    requires At(s, pos, field) && At(s, pos + |field|, Display(op))
    requires var n := pos + |field| + |Display(op)|;
             At(s, n, PrintArguments(op, vs)) && Stops(s, n + |PrintArguments(op, vs)|)
    ensures AtomAt(s, pos) == Good(Leaf(field, op, vs), pos + |field| + |Display(op)| + |PrintArguments(op, vs)|)
  {
    hide At, Display, Arguments, Operator, Value, Writable, PrintValue, ValuesTail;
    var n := pos + |field|;
    OperatorReads(s, n, op);
    ScanText(s, pos, field, IdentChar);
    FirstChar(s, pos, field);
    if op.Null? {
      NullReads(s, n + |Display(op)|, op.isNull);
      assert vs == [];
    } else {
      ArgumentsRead(s, n + |Display(op)|, op, vs);
    }
  }

  // ---------------------------------------------------------------- trees

  function Group(parts: seq<FilterNode>, conj: bool): FilterNode
    requires |parts| >= 1
  {
    if |parts| == 1 then parts[0] else if conj then And(parts) else Or(parts)
  }

  lemma Unwrap(s: string, pos: nat, inner: string)
    requires At(s, pos, "(" + inner + ")")
    ensures s[pos] == '(' && At(s, pos + 1, inner)
    ensures pos + 1 + |inner| < |s| && s[pos + 1 + |inner|] == ')'
  {
    hide At;
    AtSplit(s, pos, "(" + inner, ")");
    AtSplit(s, pos, "(", inner);
    FirstChar(s, pos, "(");
    FirstChar(s, pos + 1 + |inner|, ")");
  }

  lemma {:induction false} AtomReads(s: string, pos: nat, t: FilterNode)
    requires WellFormed(t)
    requires At(s, pos, PrintAtom(t)) && Stops(s, pos + |PrintAtom(t)|)
    ensures AtomAt(s, pos) == Good(t, pos + |PrintAtom(t)|)
    decreases t, 0
  {
    hide At, Display, PrintArguments, PrintAnd, AtomsTail, AndsTail, LeafAt, AndAt, Writable;
    match t
    case Leaf(field, op, vs) =>
      AtSplit(s, pos, field, Display(op) + PrintArguments(op, vs));
      AtSplit(s, pos + |field|, Display(op), PrintArguments(op, vs));
      LeafReads(s, pos, field, op, vs);
    case And(cs) =>
      var inner := PrintAtom(cs[0]) + AtomsTail(cs[1..]);
      Unwrap(s, pos, inner);
      AtSplit(s, pos + 1, PrintAtom(cs[0]), AtomsTail(cs[1..]));
      HeadTail(cs);
      AndReads(s, pos + 1, cs[0], cs[1..]);
      assert AndAt(s, pos + 1) == Good(t, pos + 1 + |inner|);
      assert OrAt(s, pos + 1) == Good(t, pos + 1 + |inner|);
    case Or(cs) =>
      var inner := PrintAnd(cs[0]) + AndsTail(cs[1..]);
      Unwrap(s, pos, inner);
      AtSplit(s, pos + 1, PrintAnd(cs[0]), AndsTail(cs[1..]));
      HeadTail(cs);
      OrReads(s, pos + 1, cs[0], cs[1..]);
      assert OrAt(s, pos + 1) == Good(t, pos + 1 + |inner|);
  }

  lemma AtomsTailAt(s: string, pos: nat, ts: seq<FilterNode>)
    requires (forall i :: 0 <= i < |ts| ==> WellFormed(ts[i])) && At(s, pos, AtomsTail(ts)) && Stops(s, pos + |AtomsTail(ts)|)
    ensures Stops(s, pos)
    ensures ts == [] ==> AtomsTail(ts) == ""
    ensures ts != [] ==>
              && s[pos] == ';'
              && At(s, pos + 1, PrintAtom(ts[0]))
              && At(s, pos + 1 + |PrintAtom(ts[0])|, AtomsTail(ts[1..]))
              && |AtomsTail(ts)| == 1 + |PrintAtom(ts[0])| + |AtomsTail(ts[1..])|
  {
    hide At, PrintAtom, WellFormed;
    if ts != [] {
      AtSplit(s, pos, ";", PrintAtom(ts[0]) + AtomsTail(ts[1..]));
      AtSplit(s, pos + 1, PrintAtom(ts[0]), AtomsTail(ts[1..]));
      FirstChar(s, pos, ";");
    }
  }

  lemma {:induction false} AndReads(s: string, pos: nat, t: FilterNode, ts: seq<FilterNode>)
    requires WellFormed(t) && forall i :: 0 <= i < |ts| ==> WellFormed(ts[i])
    requires At(s, pos, PrintAtom(t)) && At(s, pos + |PrintAtom(t)|, AtomsTail(ts))
    requires var e := pos + |PrintAtom(t)| + |AtomsTail(ts)|; Stops(s, e) && s[e] != ';'
    ensures AndAt(s, pos) == Good(Group([t] + ts, true), pos + |PrintAtom(t)| + |AtomsTail(ts)|)
    decreases [t] + ts, 1
  {
    hide At, PrintAtom, AtomsTail, WellFormed;
    AtomsTailAt(s, pos + |PrintAtom(t)|, ts);
    ConsParts(t, ts);
    AtomReads(s, pos, t);
    AndRestReads(s, pos + |PrintAtom(t)|, [t], ts);
  }

  lemma {:induction false} AndRestReads(s: string, pos: nat, parts: seq<FilterNode>, ts: seq<FilterNode>)
    requires |parts| >= 1 && (forall i :: 0 <= i < |parts| ==> WellFormed(parts[i])) && forall i :: 0 <= i < |ts| ==> WellFormed(ts[i])
    requires At(s, pos, AtomsTail(ts)) && Stops(s, pos + |AtomsTail(ts)|) && s[pos + |AtomsTail(ts)|] != ';'
    ensures AndRest(s, pos, parts) == Good(Group(parts + ts, true), pos + |AtomsTail(ts)|)
    decreases ts, 0
  {
    hide At, PrintAtom, AtomsTail, AtomAt, WellFormed;
    AtomsTailAt(s, pos, ts);
    if ts == [] {
      AppendNil(parts);
    } else {
      var n := pos + 1 + |PrintAtom(ts[0])|;
      AtomsTailAt(s, n, ts[1..]);
      AtomReads(s, pos + 1, ts[0]);
      AndRestReads(s, n, parts + [ts[0]], ts[1..]);
      MoveHead(parts, ts);
    }
  }

  /** A member of a disjunction: a conjunction without parentheses, or an atom. */
  lemma {:induction false} MemberReads(s: string, pos: nat, t: FilterNode)
    requires WellFormed(t)
    requires At(s, pos, PrintAnd(t)) && Stops(s, pos + |PrintAnd(t)|) && s[pos + |PrintAnd(t)|] != ';'
    ensures AndAt(s, pos) == Good(t, pos + |PrintAnd(t)|)
    decreases t, 1
  {
    hide At, PrintAtom, AtomsTail, AtomAt, LeafAt;
    if t.And? {
      var cs := t.children;
      AtSplit(s, pos, PrintAtom(cs[0]), AtomsTail(cs[1..]));
      HeadTail(cs);
      AndReads(s, pos, cs[0], cs[1..]);
    } else {
      AtomReads(s, pos, t);
    }
  }

  lemma AndsTailAt(s: string, pos: nat, ts: seq<FilterNode>)
    requires (forall i :: 0 <= i < |ts| ==> WellFormed(ts[i])) && At(s, pos, AndsTail(ts))
    requires pos + |AndsTail(ts)| < |s| && s[pos + |AndsTail(ts)|] == ')'
    ensures Stops(s, pos) && s[pos] != ';'
    ensures ts == [] ==> AndsTail(ts) == ""
    ensures ts != [] ==>
              && s[pos] == ','
              && At(s, pos + 1, PrintAnd(ts[0]))
              && At(s, pos + 1 + |PrintAnd(ts[0])|, AndsTail(ts[1..]))
              && |AndsTail(ts)| == 1 + |PrintAnd(ts[0])| + |AndsTail(ts[1..])|
  {
    hide At, PrintAnd, WellFormed;
    if ts != [] {
      AtSplit(s, pos, ",", PrintAnd(ts[0]) + AndsTail(ts[1..]));
      AtSplit(s, pos + 1, PrintAnd(ts[0]), AndsTail(ts[1..]));
      FirstChar(s, pos, ",");
    }
  }

  lemma {:induction false} OrReads(s: string, pos: nat, t: FilterNode, ts: seq<FilterNode>)
    requires WellFormed(t) && forall i :: 0 <= i < |ts| ==> WellFormed(ts[i])
    requires At(s, pos, PrintAnd(t)) && At(s, pos + |PrintAnd(t)|, AndsTail(ts))
    requires var e := pos + |PrintAnd(t)| + |AndsTail(ts)|; e < |s| && s[e] == ')'
    ensures OrAt(s, pos) == Good(Group([t] + ts, false), pos + |PrintAnd(t)| + |AndsTail(ts)|)
    decreases [t] + ts, 1
  {
    hide At, PrintAnd, AndsTail, WellFormed;
    AndsTailAt(s, pos + |PrintAnd(t)|, ts);
    ConsParts(t, ts);
    MemberReads(s, pos, t);
    OrRestReads(s, pos + |PrintAnd(t)|, [t], ts);
  }

  lemma {:induction false} OrRestReads(s: string, pos: nat, parts: seq<FilterNode>, ts: seq<FilterNode>)
    requires |parts| >= 1 && (forall i :: 0 <= i < |parts| ==> WellFormed(parts[i])) && forall i :: 0 <= i < |ts| ==> WellFormed(ts[i])
    requires At(s, pos, AndsTail(ts)) && pos + |AndsTail(ts)| < |s| && s[pos + |AndsTail(ts)|] == ')'
    ensures OrRest(s, pos, parts) == Good(Group(parts + ts, false), pos + |AndsTail(ts)|)
    decreases ts, 0
  {
    hide At, PrintAnd, AndsTail, AndAt, WellFormed;
    AndsTailAt(s, pos, ts);
    if ts == [] {
      AppendNil(parts);
    } else {
      var n := pos + 1 + |PrintAnd(ts[0])|;
      AndsTailAt(s, n, ts[1..]);
      MemberReads(s, pos + 1, ts[0]);
      OrRestReads(s, n, parts + [ts[0]], ts[1..]);
      MoveHead(parts, ts);
    }
  }

  // ---------------------------------------------------------------- the two main results

  /** A whole expression, closed by a parenthesis. */
  lemma ExpressionReads(s: string, pos: nat, t: FilterNode)
    requires WellFormed(t)
    requires At(s, pos, PrintOr(t)) && pos + |PrintOr(t)| < |s| && s[pos + |PrintOr(t)|] == ')'
    ensures OrAt(s, pos) == Good(t, pos + |PrintOr(t)|)
  {
    hide At, PrintAnd, AndsTail, AndAt;
    if t.Or? {
      var cs := t.children;
      AtSplit(s, pos, PrintAnd(cs[0]), AndsTail(cs[1..]));
      HeadTail(cs);
      OrReads(s, pos, cs[0], cs[1..]);
    } else {
      MemberReads(s, pos, t);
    }
  }

  /** Every well-formed tree, printed with the fewest inner parentheses, parses back to itself. */
  lemma PrintThenParse(t: FilterNode)
    requires WellFormed(t)
    ensures Parse(Print(t)) == Ok(t)
  {
    hide PrintOr, WellFormed, LeafAt;
    var s := Print(t);
    Unwrap(s, 0, PrintOr(t));
    ExpressionReads(s, 1, t);
    assert AtomAt(s, 0) == Good(t, |s|);
    assert AndAt(s, 0) == Good(t, |s|);
    assert OrAt(s, 0) == Good(t, |s|);
    TrimKeeps(s);
  }

  /** The range of the parser is exactly the well-formed trees. */
  lemma RangeIsWellFormed(t: FilterNode)
    ensures WellFormed(t) <==> exists s :: Parse(s) == Ok(t)
  {
    if WellFormed(t) {
      PrintThenParse(t);
    }
  }
}
