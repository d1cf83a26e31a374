/** The RSQL language as whole texts put together from pieces, with no positions, and the proof that
    the parser accepts exactly its texts, with exactly their trees. */
module RsqlLanguage {
  import opened Prelude
  import opened Rsql
  import opened RsqlPrinter

  // ---------------------------------------------------------------- the language

  predicate Reserved(c: char) { c == ',' || c == ';' || c == '(' || c == ')' }

  predicate NameChar(c: char) { 'a' <= c <= 'z' || 'A' <= c <= 'Z' || '0' <= c <= '9' || c == '_' }

  predicate NameText(s: string) { s != "" && forall i :: 0 <= i < |s| ==> NameChar(s[i]) }

  /** A value between quotes, or bare. */
  predicate ValueText(s: string, v: string) {
    || (s == "\"" + v + "\"" && '"' !in v)
    || (s == v && (v != "" ==> v[0] != '"') && forall i :: 0 <= i < |v| ==> !Reserved(v[i]))
  }

  /** The spelling of each operator. */
  predicate OpText(s: string, op: RsqlOp) {
    match op
    case Eq => s == "==" case Neq => s == "!="
    case Gt => s == "=gt=" case Ge => s == "=ge=" case Lt => s == "=lt=" case Le => s == "=le="
    case In => s == "=in=" case Out => s == "=out=" case Between => s == "=between="
    case Like => s == "=like=" case Ilike => s == "=ilike="
    case Contains => s == "=contains=" case Starts => s == "=starts=" case Ends => s == "=ends="
    case Null(_) => s == "=null="
  }

  /** `true` or `false`, in any mixture of cases. */
  predicate BoolText(s: string, b: bool) {
    if b then |s| == 4 && s[0] in "tT" && s[1] in "rR" && s[2] in "uU" && s[3] in "eE"
    else |s| == 5 && s[0] in "fF" && s[1] in "aA" && s[2] in "lL" && s[3] in "sS" && s[4] in "eE"
  }

  /** Values with commas between them. */
  ghost predicate ListText(s: string, vs: seq<string>)
    decreases |s|
  {
    if |vs| <= 1 then |vs| == 1 && ValueText(s, vs[0])
    else exists a, b :: s == a + "," + b && ValueText(a, vs[0]) && ListText(b, vs[1..])
  }

  ghost predicate ArgumentsText(s: string, op: RsqlOp, vs: seq<string>) {
    match op
    case Null(b) => vs == [] && exists v :: ValueText(s, v) && BoolText(v, b)
    case In => exists l :: s == "(" + l + ")" && ListText(l, vs)
    case Out => exists l :: s == "(" + l + ")" && ListText(l, vs)
    case Between => exists l :: s == "(" + l + ")" && ListText(l, vs)
    case _ => |vs| == 1 && ValueText(s, vs[0])
  }

  ghost predicate LeafText(s: string, t: FilterNode) {
    t.Leaf? && NameText(t.field)
    && exists o, a :: s == t.field + o + a && OpText(o, t.op) && ArgumentsText(a, t.op, t.values)
  }

  /** A leaf, or an expression in parentheses, needed or not. */
  ghost predicate AtomText(s: string, t: FilterNode)
    decreases |s|, 0
  {
    LeafText(s, t) || exists i :: s == "(" + i + ")" && OrText(i, t)
  }

  /** Atoms with semicolons between them. */
  ghost predicate AndParts(s: string, ts: seq<FilterNode>)
    decreases |s|, 1
  {
    if |ts| <= 1 then |ts| == 1 && AtomText(s, ts[0])
    else exists a, b :: s == a + ";" + b && AtomText(a, ts[0]) && AndParts(b, ts[1..])
  }

  /** One atom, or a conjunction of two and more. */
  ghost predicate AndText(s: string, t: FilterNode)
    decreases |s|, 2
  {
    AtomText(s, t) || (t.And? && |t.children| >= 2 && AndParts(s, t.children))
  }

  /** Conjunctions with commas between them. */
  ghost predicate OrParts(s: string, ts: seq<FilterNode>)
    decreases |s|, 3
  {
    if |ts| <= 1 then |ts| == 1 && AndText(s, ts[0])
    else exists a, b :: s == a + "," + b && AndText(a, ts[0]) && OrParts(b, ts[1..])
  }

  ghost predicate OrText(s: string, t: FilterNode)
    decreases |s|, 4
  {
    AndText(s, t) || (t.Or? && |t.children| >= 2 && OrParts(s, t.children))
  }

  predicate AllWhite(s: string) { forall i :: 0 <= i < |s| ==> White(s[i]) }

  /** `s` is `q` without surrounding white space. */
  ghost predicate Trimmed(q: string, s: string) {
    (s != "" ==> !White(s[0]) && !White(s[|s| - 1])) && exists a, b :: q == a + s + b && AllWhite(a) && AllWhite(b)
  }

  /** White space is Unicode's, 25 characters. */
  lemma WhiteIs(c: char)
    ensures White(c) <==>
              var n := c as int;
              n in {9, 10, 11, 12, 13, 32, 133, 160, 5760, 8192, 8193, 8194, 8195, 8196, 8197, 8198, 8199, 8200, 8201,
                    8202, 8232, 8233, 8239, 8287, 12288}
  {
  }

  // ---------------------------------------------------------------- what is read is in the language

  lemma ValueSound(s: string, pos: nat)
    requires pos <= |s| && Value(s, pos).Good?
    ensures ValueText(s[pos..Value(s, pos).next], Value(s, pos).value)
  {
    var Good(v, n) := Value(s, pos);
    if pos < |s| && s[pos] == '"' {
      assert s[pos..n] == "\"" + v + "\"";
    } else {
      assert s[pos..n] == v;
    }
  }

  lemma {:induction false} ListSound(s: string, pos: nat, acc: seq<string>)
    requires pos <= |s| && ValueList(s, pos, acc).Good?
    ensures var Good(vs, n) := ValueList(s, pos, acc); s[n - 1] == ')' && ListText(s[pos..n - 1], vs[|acc|..])
    decreases |s| - pos
  {
    hide ValueText, Value;
    ValueSound(s, pos);
    var Good(v, n) := Value(s, pos);
    var Good(vs, m) := ValueList(s, pos, acc);
    if s[n] == ',' {
      ListSound(s, n + 1, acc + [v]);
      assert vs[|acc|..][0] == v && vs[|acc|..][1..] == vs[|acc| + 1..];
      assert s[pos..m - 1] == s[pos..n] + "," + s[n + 1..m - 1];
    } else {
      assert vs[|acc|..] == [v];
    }
  }

  lemma NamedSound(name: string)
    requires NamedOp(name).Some?
    ensures OpText("=" + name + "=", NamedOp(name).value)
  {
    var s := "=" + name + "=";
    if name == "gt" { assert s == "=gt="; }
    else if name == "ge" { assert s == "=ge="; }
    else if name == "lt" { assert s == "=lt="; }
    else if name == "le" { assert s == "=le="; }
    else if name == "in" { assert s == "=in="; }
    else if name == "out" { assert s == "=out="; }
    else if name == "like" { assert s == "=like="; }
    else if name == "ilike" { assert s == "=ilike="; }
    else if name == "contains" { assert s == "=contains="; }
    else if name == "starts" { assert s == "=starts="; }
    else if name == "ends" { assert s == "=ends="; }
    else if name == "between" { assert s == "=between="; }
    else { assert s == "=null="; }
  }

  lemma OperatorSound(s: string, pos: nat)
    requires pos <= |s| && Operator(s, pos).Good?
    ensures OpText(s[pos..Operator(s, pos).next], Operator(s, pos).value)
  {
    hide OpText, NamedOp;
    var Good(op, n) := Operator(s, pos);
    if op != Eq && op != Neq {
      var name := s[pos + 1..n - 1];
      NamedSound(name);
      assert s[pos..n] == "=" + name + "=";
    } else {
      TwoSound(s, pos);
    }
  }

  lemma TwoSound(s: string, pos: nat)
    requires pos <= |s| && Operator(s, pos).Good? && (Operator(s, pos).value == Eq || Operator(s, pos).value == Neq)
    ensures OpText(s[pos..Operator(s, pos).next], Operator(s, pos).value)
  {
  }

  lemma LowerTrue(v: string, b: bool)
    ensures Lower(v) == (if b then "true" else "false") <==> BoolText(v, b)
  {
    var w := if b then "true" else "false";
    if Lower(v) == w {
      assert forall i :: 0 <= i < |v| ==> LowerChar(v[i]) == w[i];
    }
    if BoolText(v, b) {
      assert forall i :: 0 <= i < |v| ==> Lower(v)[i] == w[i];
    }
  }

  lemma ArgumentsSound(s: string, pos: nat, op: RsqlOp)
    requires pos <= |s| && !op.Null? && Arguments(s, pos, op).Good?
    ensures var Good(vs, n) := Arguments(s, pos, op); ArgumentsText(s[pos..n], op, vs)
  {
    hide ValueText, Value, ValueList;
    var Good(vs, n) := Arguments(s, pos, op);
    if TakesList(op) {
      ListSound(s, pos + 1, []);
      assert vs[0..] == vs;
      assert s[pos..n] == "(" + s[pos + 1..n - 1] + ")";
    } else {
      ValueSound(s, pos);
    }
  }

  lemma LeafSound(s: string, pos: nat)
    requires pos <= |s| && LeafAt(s, pos).Good?
    ensures LeafText(s[pos..LeafAt(s, pos).next], LeafAt(s, pos).value)
  {
    hide ValueText, Value, Operator, OpText, Arguments, ArgumentsText;
    var Good(t, k) := LeafAt(s, pos);
    var Good(field, n) := Selector(s, pos);
    var Good(op, m) := Operator(s, n);
    OperatorSound(s, n);
    assert field == s[pos..n];
    assert s[pos..k] == field + s[n..m] + s[m..k];
    if op.Null? {
      ValueSound(s, m);
      NullSound(s[n..m], s[m..k], Value(s, m).value, t.op.isNull);
    } else {
      ArgumentsSound(s, m, op);
    }
  }

  lemma NullSound(o: string, a: string, v: string, b: bool)
    requires OpText(o, Null(true)) || OpText(o, Null(false))
    requires ValueText(a, v) && Lower(v) == (if b then "true" else "false")
    ensures OpText(o, Null(b)) && ArgumentsText(a, Null(b), [])
  {
    LowerTrue(v, b);
  }

  lemma {:induction false} AndSnoc(a: string, ts: seq<FilterNode>, b: string, t: FilterNode)
    requires AndParts(a, ts) && AtomText(b, t)
    ensures AndParts(a + ";" + b, ts + [t])
    decreases |a|
  {
    hide AtomText;
    var more := ts + [t];
    if |ts| == 1 {
      assert more[0] == ts[0] && more[1..] == [t];
      assert AndParts(b, [t]);
    } else {
      var x, y :| a == x + ";" + y && AtomText(x, ts[0]) && AndParts(y, ts[1..]);
      AndSnoc(y, ts[1..], b, t);
      assert a + ";" + b == x + ";" + (y + ";" + b);
      assert more[0] == ts[0] && more[1..] == ts[1..] + [t];
    }
  }

  lemma {:induction false} OrSnoc(a: string, ts: seq<FilterNode>, b: string, t: FilterNode)
    requires OrParts(a, ts) && AndText(b, t)
    ensures OrParts(a + "," + b, ts + [t])
    decreases |a|
  {
    hide AndText;
    var more := ts + [t];
    if |ts| == 1 {
      assert more[0] == ts[0] && more[1..] == [t];
      assert OrParts(b, [t]);
    } else {
      var x, y :| a == x + "," + y && AndText(x, ts[0]) && OrParts(y, ts[1..]);
      OrSnoc(y, ts[1..], b, t);
      assert a + "," + b == x + "," + (y + "," + b);
      assert more[0] == ts[0] && more[1..] == ts[1..] + [t];
    }
  }

  lemma {:induction false} AtomSound(s: string, pos: nat)
    requires pos <= |s| && AtomAt(s, pos).Good?
    ensures AtomText(s[pos..AtomAt(s, pos).next], AtomAt(s, pos).value)
    decreases |s| - pos, 1
  {
    hide LeafText, LeafAt, OrText, OrAt;
    var Good(t, n) := AtomAt(s, pos);
    if pos < |s| && s[pos] == '(' {
      OrSound(s, pos + 1);
      assert s[pos..n] == "(" + s[pos + 1..n - 1] + ")";
    } else {
      LeafSound(s, pos);
    }
  }

  lemma {:induction false} AndSound(s: string, pos: nat)
    requires pos <= |s| && AndAt(s, pos).Good?
    ensures AndText(s[pos..AndAt(s, pos).next], AndAt(s, pos).value)
    decreases |s| - pos, 2
  {
    hide AtomText, AtomAt, AndRest, AndText;
    AtomSound(s, pos);
    var Good(first, n) := AtomAt(s, pos);
    assert AndParts(s[pos..n], [first]);
    AndRestSound(s, pos, n, [first]);
  }

  lemma {:induction false} AndRestSound(s: string, from: nat, pos: nat, parts: seq<FilterNode>)
    requires from < pos <= |s| && |parts| >= 1 && forall i :: 0 <= i < |parts| ==> WellFormed(parts[i])
    requires AndParts(s[from..pos], parts) && AndRest(s, pos, parts).Good?
    ensures AndText(s[from..AndRest(s, pos, parts).next], AndRest(s, pos, parts).value)
    decreases |s| - pos, 0
  {
    hide AtomText, AtomAt, WellFormed;
    if pos < |s| && s[pos] == ';' {
      hide AndParts, AndText;
      AtomSound(s, pos + 1);
      var Good(t, n) := AtomAt(s, pos + 1);
      AndSnoc(s[from..pos], parts, s[pos + 1..n], t);
      assert s[from..n] == s[from..pos] + ";" + s[pos + 1..n];
      AndRestSound(s, from, n, parts + [t]);
    }
  }

  lemma {:induction false} OrSound(s: string, pos: nat)
    requires pos <= |s| && OrAt(s, pos).Good?
    ensures OrText(s[pos..OrAt(s, pos).next], OrAt(s, pos).value)
    decreases |s| - pos, 3
  {
    hide AndText, AndAt, OrRest, OrText;
    AndSound(s, pos);
    var Good(first, n) := AndAt(s, pos);
    assert OrParts(s[pos..n], [first]);
    OrRestSound(s, pos, n, [first]);
  }

  lemma {:induction false} OrRestSound(s: string, from: nat, pos: nat, parts: seq<FilterNode>)
    requires from < pos <= |s| && |parts| >= 1 && forall i :: 0 <= i < |parts| ==> WellFormed(parts[i])
    requires OrParts(s[from..pos], parts) && OrRest(s, pos, parts).Good?
    ensures OrText(s[from..OrRest(s, pos, parts).next], OrRest(s, pos, parts).value)
    decreases |s| - pos, 0
  {
    hide AndText, AndAt, WellFormed;
    if pos < |s| && s[pos] == ',' {
      hide OrParts, OrText;
      AndSound(s, pos + 1);
      var Good(t, n) := AndAt(s, pos + 1);
      OrSnoc(s[from..pos], parts, s[pos + 1..n], t);
      assert s[from..n] == s[from..pos] + "," + s[pos + 1..n];
      OrRestSound(s, from, n, parts + [t]);
    }
  }

  // ---------------------------------------------------------------- what is in the language is read

  /** Nothing that a bare value could swallow follows. */
  predicate Ends(s: string, e: nat) { e == |s| || (e < |s| && Reserved(s[e])) }

  lemma ScanEnd(s: string, pos: nat, text: string, p: char -> bool)
    requires At(s, pos, text) && forall i :: 0 <= i < |text| ==> p(text[i])
    requires pos + |text| < |s| ==> !p(s[pos + |text|])
    ensures SkipWhile(s, pos, p) == pos + |text| && s[pos..pos + |text|] == text
  {
    AtSlice(s, pos, text);
    forall i | pos <= i < pos + |text| ensures p(s[i]) {
      assert s[i] == text[i - pos];
    }
    SkipWhileStopsAt(s, pos, p, pos + |text|);
  }

  lemma ValueComplete(s: string, pos: nat, x: string, v: string)
    requires At(s, pos, x) && ValueText(x, v) && Ends(s, pos + |x|)
    ensures Value(s, pos) == Good(v, pos + |x|)
  {
    hide At;
    if x == "\"" + v + "\"" && '"' !in v {
      AtSplit(s, pos, "\"" + v, "\"");
      AtSplit(s, pos, "\"", v);
      FirstChar(s, pos, "\"");
      FirstChar(s, pos + 1 + |v|, "\"");
      ScanEnd(s, pos + 1, v, NotQuote);
    } else {
      if v != "" {
        FirstChar(s, pos, v);
      }
      ScanEnd(s, pos, v, Plain);
    }
  }

  lemma {:induction false} ListComplete(s: string, pos: nat, x: string, vs: seq<string>, acc: seq<string>)
    requires At(s, pos, x) && ListText(x, vs) && pos + |x| < |s| && s[pos + |x|] == ')'
    ensures ValueList(s, pos, acc) == Good(acc + vs, pos + |x| + 1)
    decreases |x|
  {
    hide At, ValueText, Value;
    if |vs| == 1 {
      ValueComplete(s, pos, x, vs[0]);
      assert acc + vs == acc + [vs[0]];
    } else {
      var a, b :| x == a + "," + b && ValueText(a, vs[0]) && ListText(b, vs[1..]);
      AtSplit(s, pos, a + ",", b);
      AtSplit(s, pos, a, ",");
      FirstChar(s, pos + |a|, ",");
      ValueComplete(s, pos, a, vs[0]);
      ListComplete(s, pos + |a| + 1, b, vs[1..], acc + [vs[0]]);
      MoveHead(acc, vs);
    }
  }

  lemma OpTextIsDisplay(o: string, op: RsqlOp)
    requires OpText(o, op)
    ensures o == Display(op)
  {
    if !op.Eq? && !op.Neq? {
      match op
      case Gt => assert "=" + "gt" + "=" == "=gt=";
      case Ge => assert "=" + "ge" + "=" == "=ge=";
      case Lt => assert "=" + "lt" + "=" == "=lt=";
      case Le => assert "=" + "le" + "=" == "=le=";
      case In => assert "=" + "in" + "=" == "=in=";
      case Out => assert "=" + "out" + "=" == "=out=";
      case Between => assert "=" + "between" + "=" == "=between=";
      case Like => assert "=" + "like" + "=" == "=like=";
      case Ilike => assert "=" + "ilike" + "=" == "=ilike=";
      case Contains => assert "=" + "contains" + "=" == "=contains=";
      case Starts => assert "=" + "starts" + "=" == "=starts=";
      case Ends => assert "=" + "ends" + "=" == "=ends=";
      case Null(_) => assert "=" + "null" + "=" == "=null=";
      case _ =>
    }
  }

  lemma ArgumentsComplete(s: string, pos: nat, x: string, op: RsqlOp, vs: seq<string>)
    requires At(s, pos, x) && !op.Null? && ArgumentsText(x, op, vs) && Ends(s, pos + |x|)
    ensures Arguments(s, pos, op) == Good(vs, pos + |x|)
  {
    hide At, ValueText, Value, ListText, ValueList;
    if TakesList(op) {
      var l :| x == "(" + l + ")" && ListText(l, vs);
      AtSplit(s, pos, "(" + l, ")");
      AtSplit(s, pos, "(", l);
      FirstChar(s, pos, "(");
      FirstChar(s, pos + 1 + |l|, ")");
      ListComplete(s, pos + 1, l, vs, []);
      assert [] + vs == vs;
    } else {
      ValueComplete(s, pos, x, vs[0]);
      assert [vs[0]] == vs;
    }
  }

  lemma LeafComplete(s: string, pos: nat, x: string, t: FilterNode)
    requires At(s, pos, x) && LeafText(x, t) && Ends(s, pos + |x|)
    ensures LeafAt(s, pos) == Good(t, pos + |x|) && s[pos] != '('
  {
    hide *;
    var o, a := LeafPieces(x, t);
    AtSplit(s, pos, t.field + o, a);
    AtSplit(s, pos, t.field, o);
    SelectorComplete(s, pos, t.field, o, t.op);
    OpTextIsDisplay(o, t.op);
    OperatorReads(s, pos + |t.field|, t.op);
    var m := pos + |t.field| + |o|;
    if t.op.Null? {
      NullComplete(s, m, a, t.op.isNull, t.values);
      NullLeaf(s, pos, pos + |t.field|, m, pos + |x|, t);
    } else {
      ArgumentsComplete(s, m, a, t.op, t.values);
      ListedLeaf(s, pos, pos + |t.field|, m, pos + |x|, t);
    }
  }

  /** A leaf with values, when its three parts are read. */
  lemma ListedLeaf(s: string, pos: nat, n: nat, m: nat, k: nat, t: FilterNode)
    requires pos <= |s| && n <= |s| && m <= |s| && t.Leaf? && !t.op.Null?
    requires Selector(s, pos) == Good(t.field, n) && Operator(s, n) == Good(t.op, m) && Arguments(s, m, t.op) == Good(t.values, k)
    ensures LeafAt(s, pos) == Good(t, k)
  {
    hide Selector, Operator, Arguments, Value;
  }

  /** A null test. */
  lemma NullLeaf(s: string, pos: nat, n: nat, m: nat, k: nat, t: FilterNode)
    requires pos <= |s| && n <= |s| && m <= |s| && t.Leaf? && t.op.Null? && t.values == []
    requires Selector(s, pos) == Good(t.field, n) && Operator(s, n) == Good(Null(true), m)
    requires Value(s, m).Good? && Value(s, m).next == k
    requires Lower(Value(s, m).value) == if t.op.isNull then "true" else "false"
    ensures LeafAt(s, pos) == Good(t, k)
  {
    hide Selector, Operator, Arguments, Value, Lower;
    assert "true" != "false" by { assert |"true"| != |"false"|; }
  }

  lemma LeafPieces(x: string, t: FilterNode) returns (o: string, a: string)
    requires LeafText(x, t)
    ensures t.Leaf? && NameText(t.field)
    ensures x == (t.field + o) + a && OpText(o, t.op) && ArgumentsText(a, t.op, t.values)
  {
    hide NameText, OpText, ArgumentsText;
    o, a :| x == t.field + o + a && OpText(o, t.op) && ArgumentsText(a, t.op, t.values);
  }

  lemma SelectorComplete(s: string, pos: nat, field: string, o: string, op: RsqlOp)
    requires At(s, pos, field) && NameText(field) && At(s, pos + |field|, o) && OpText(o, op)
    ensures Selector(s, pos) == Good(field, pos + |field|) && s[pos] != '('
  {
    hide At;
    OpStarts(o, op);
    FirstChar(s, pos + |field|, o);
    ScanEnd(s, pos, field, IdentChar);
    FirstChar(s, pos, field);
  }

  lemma OpStarts(o: string, op: RsqlOp)
    requires OpText(o, op)
    ensures o != "" && (o[0] == '=' || o[0] == '!')
  {
  }

  lemma NullComplete(s: string, pos: nat, x: string, b: bool, vs: seq<string>)
    requires At(s, pos, x) && ArgumentsText(x, Null(b), vs) && Ends(s, pos + |x|)
    ensures vs == [] && Value(s, pos).Good? && Value(s, pos).next == pos + |x|
    ensures Lower(Value(s, pos).value) == if b then "true" else "false"
  {
    hide Lower, Value, At;
    var v :| ValueText(x, v) && BoolText(v, b);
    ValueComplete(s, pos, x, v);
    LowerTrue(v, b);
  }

  lemma {:induction false} AtomComplete(s: string, pos: nat, x: string, t: FilterNode)
    requires At(s, pos, x) && AtomText(x, t) && Ends(s, pos + |x|)
    ensures AtomAt(s, pos) == Good(t, pos + |x|)
    decreases |x|, 0
  {
    hide At, LeafText, LeafAt, OrAt, OrText;
    if LeafText(x, t) {
      LeafComplete(s, pos, x, t);
      LeafLong(x, t);
    } else {
      var i :| x == "(" + i + ")" && OrText(i, t);
      AtSplit(s, pos, "(" + i, ")");
      AtSplit(s, pos, "(", i);
      FirstChar(s, pos, "(");
      FirstChar(s, pos + 1 + |i|, ")");
      OrComplete(s, pos + 1, i, t);
    }
  }

  lemma LeafLong(x: string, t: FilterNode)
    requires LeafText(x, t)
    ensures x != ""
  {
  }

  lemma {:induction false} AndPartsComplete(s: string, pos: nat, x: string, ts: seq<FilterNode>, acc: seq<FilterNode>)
    requires At(s, pos, x) && AndParts(x, ts) && Ends(s, pos + |x|) && (pos + |x| < |s| ==> s[pos + |x|] != ';')
    requires forall i :: 0 <= i < |acc| ==> WellFormed(acc[i])
    ensures ts != [] && AtomAt(s, pos).Good? && AtomAt(s, pos).value == ts[0]
    ensures AndRest(s, AtomAt(s, pos).next, acc + [ts[0]]) == Good(Group(acc + ts, true), pos + |x|)
    decreases |x|, 1
  {
    hide At, AtomText, AtomAt, WellFormed;
    if |ts| == 1 {
      AtomComplete(s, pos, x, ts[0]);
      assert acc + ts == acc + [ts[0]];
    } else {
      var a, b :| x == a + ";" + b && AtomText(a, ts[0]) && AndParts(b, ts[1..]);
      AtSplit(s, pos, a + ";", b);
      AtSplit(s, pos, a, ";");
      FirstChar(s, pos + |a|, ";");
      AtomComplete(s, pos, a, ts[0]);
      AndPartsComplete(s, pos + |a| + 1, b, ts[1..], acc + [ts[0]]);
      MoveHead(acc, ts);
    }
  }

  lemma {:induction false} AndComplete(s: string, pos: nat, x: string, t: FilterNode)
    requires At(s, pos, x) && AndText(x, t) && Ends(s, pos + |x|) && (pos + |x| < |s| ==> s[pos + |x|] != ';')
    ensures AndAt(s, pos) == Good(t, pos + |x|)
    decreases |x|, 2
  {
    hide At, AtomText, AtomAt;
    if AtomText(x, t) {
      AtomComplete(s, pos, x, t);
    } else {
      AndPartsComplete(s, pos, x, t.children, []);
      assert [] + t.children == t.children && [] + [t.children[0]] == [t.children[0]];
    }
  }

  lemma {:induction false} OrPartsComplete(s: string, pos: nat, x: string, ts: seq<FilterNode>, acc: seq<FilterNode>)
    requires At(s, pos, x) && OrParts(x, ts) && (pos + |x| < |s| ==> s[pos + |x|] == ')')
    requires forall i :: 0 <= i < |acc| ==> WellFormed(acc[i])
    ensures ts != [] && AndAt(s, pos).Good? && AndAt(s, pos).value == ts[0]
    ensures OrRest(s, AndAt(s, pos).next, acc + [ts[0]]) == Good(Group(acc + ts, false), pos + |x|)
    decreases |x|, 3
  {
    hide At, AndText, AndAt, WellFormed;
    if |ts| == 1 {
      AtEnd(s, pos, x);
      AndComplete(s, pos, x, ts[0]);
      assert acc + ts == acc + [ts[0]];
    } else {
      var a, b :| x == a + "," + b && AndText(a, ts[0]) && OrParts(b, ts[1..]);
      AtSplit(s, pos, a + ",", b);
      AtSplit(s, pos, a, ",");
      FirstChar(s, pos + |a|, ",");
      AndComplete(s, pos, a, ts[0]);
      OrPartsComplete(s, pos + |a| + 1, b, ts[1..], acc + [ts[0]]);
      MoveHead(acc, ts);
    }
  }

  lemma AtEnd(s: string, pos: nat, x: string)
    requires At(s, pos, x) && (pos + |x| < |s| ==> s[pos + |x|] == ')')
    ensures Ends(s, pos + |x|)
  {
  }

  lemma {:induction false} OrComplete(s: string, pos: nat, x: string, t: FilterNode)
    requires At(s, pos, x) && OrText(x, t) && (pos + |x| < |s| ==> s[pos + |x|] == ')')
    ensures OrAt(s, pos) == Good(t, pos + |x|)
    decreases |x|, 4
  {
    hide At, AndText, AndAt;
    if AndText(x, t) {
      AtEnd(s, pos, x);
      AndComplete(s, pos, x, t);
    } else {
      OrPartsComplete(s, pos, x, t.children, []);
      assert [] + t.children == t.children && [] + [t.children[0]] == [t.children[0]];
    }
  }

  // ---------------------------------------------------------------- the whole input

  lemma {:induction false} TrimEndAppend(s: string, b: string)
    requires s != "" && !White(s[|s| - 1]) && AllWhite(b)
    ensures TrimEnd(s + b) == s
    decreases |b|
  {
    if b == "" {
      assert s + b == s;
    } else {
      var k := |b| - 1;
      assert (s + b)[..|s + b| - 1] == s + b[..k] && (s + b)[|s + b| - 1] == b[k];
      TrimEndAppend(s, b[..k]);
    }
  }

  /** Lower case replaces the 26 capitals and leaves every other character. */
  lemma LowerIs(c: char)
    ensures forall i :: 0 <= i < 26 && c == CAPITALS[i] ==> LowerChar(c) == LETTERS[i]
    ensures c !in CAPITALS ==> LowerChar(c) == c
  {
    CapitalsAre(c);
  }

  lemma LowerEach(s: string)
    ensures |Lower(s)| == |s| && forall i :: 0 <= i < |s| ==> Lower(s)[i] == LowerChar(s[i])
  {
  }

  /** The text without surrounding white space is unique. */
  lemma TrimmedIsTrim(q: string, s: string)
    requires Trimmed(q, s)
    ensures Trim(q) == s
  {
    hide White, Trim;
    if s != "" {
      TrimmedText(q, s);
    } else {
      TrimIsTrimmed(q);
      WhiteThroughout(q);
      if Trim(q) != "" {
        NotWhite(q, Trim(q));
      }
    }
  }

  lemma WhiteThroughout(q: string)
    requires Trimmed(q, "")
    ensures AllWhite(q)
  {
    hide White;
    var a, b :| q == a + "" + b && AllWhite(a) && AllWhite(b);
    assert q == a + b;
  }

  lemma NotWhite(q: string, s: string)
    requires Trimmed(q, s) && s != ""
    ensures !AllWhite(q)
  {
    hide White;
    var x, y :| q == x + s + y && AllWhite(x) && AllWhite(y);
    assert q[|x|] == s[0];
  }

  lemma TrimmedText(q: string, s: string)
    requires s != "" && Trimmed(q, s)
    ensures Trim(q) == s
  {
    var a, b :| q == a + s + b && AllWhite(a) && AllWhite(b);
    forall i | 0 <= i < |a| ensures White(q[i]) {
      assert q[i] == a[i];
    }
    assert q[|a|] == s[0];
    SkipWhileStopsAt(q, 0, White, |a|);
    assert q[|a|..] == s + b;
    TrimEndAppend(s, b);
  }

  lemma {:induction false} TrimEndDrops(s: string)
    ensures TrimEnd(s) <= s && AllWhite(s[|TrimEnd(s)|..])
    ensures TrimEnd(s) != "" ==> !White(TrimEnd(s)[|TrimEnd(s)| - 1])
  {
    if s != "" && White(s[|s| - 1]) {
      var k := |s| - 1;
      TrimEndDrops(s[..k]);
      var n := |TrimEnd(s)|;
      assert s[n..] == s[..k][n..] + [s[k]];
    } else {
      assert s[|s|..] == "";
    }
  }

  lemma Pieces(q: string, e: nat, s: string)
    requires e <= |q| && s <= q[e..]
    ensures q == q[..e] + s + q[e..][|s|..]
  {
    assert q[e..] == s + q[e..][|s|..];
    Assoc(q[..e], s, q[e..][|s|..]);
  }

  lemma TrimIsTrimmed(q: string)
    ensures Trimmed(q, Trim(q))
  {
    hide White, TrimEnd;
    var e := SkipWhile(q, 0, White);
    var s := TrimEnd(q[e..]);
    TrimEndDrops(q[e..]);
    Pieces(q, e, s);
    assert AllWhite(q[..e]);
    assert AllWhite(q[e..][|s|..]);
    assert s != "" ==> s[0] == q[e];
    hide *;
    TrimmedFrom(q, q[..e], s, q[e..][|s|..]);
  }

  lemma TrimmedFrom(q: string, a: string, s: string, b: string)
    requires q == a + s + b && AllWhite(a) && AllWhite(b) && (s != "" ==> !White(s[0]) && !White(s[|s| - 1]))
    ensures Trimmed(q, s)
  {
  }

  lemma {:induction false} ExpressionLong(s: string, t: FilterNode)
    requires OrText(s, t)
    ensures s != ""
  {
    hide LeafText;
    NoEmptyAtom(t);
  }

  lemma NoEmptyAtom(t: FilterNode)
    ensures !AtomText("", t)
  {
    hide LeafText;
    if LeafText("", t) {
      LeafLong("", t);
    }
  }

  /** Parsing succeeds with a tree exactly when the text, without surrounding white space, is a text
      of that tree; every other text is refused. */
  lemma ParseIff(q: string, t: FilterNode)
    ensures Parse(q) == Ok(t) <==> exists s :: Trimmed(q, s) && OrText(s, t)
  {
    hide Trimmed, OrText, Trim, OrAt, At;
    if Parse(q) == Ok(t) {
      TrimIsTrimmed(q);
      OrSound(Trim(q), 0);
      assert Trim(q)[0..|Trim(q)|] == Trim(q);
    }
    if s :| Trimmed(q, s) && OrText(s, t) {
      ExpressionLong(s, t);
      TrimmedIsTrim(q, s);
      AtItself(s);
      OrComplete(s, 0, s, t);
    }
  }

  lemma AtItself(s: string)
    ensures At(s, 0, s)
  {
  }

  /** So a text is refused exactly when it is no text of any tree. */
  lemma RefusedIff(q: string)
    ensures Parse(q).Err? <==> !exists s, t :: Trimmed(q, s) && OrText(s, t)
  {
    hide Parse, Trimmed, OrText;
    if Parse(q).Ok? {
      ParseIff(q, Parse(q).value);
    }
    if s, t :| Trimmed(q, s) && OrText(s, t) {
      ParseIff(q, t);
    }
  }
}
