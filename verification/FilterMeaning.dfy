/** What the texts written by the builder mean: the independent SQL reader of `Sql` reads them
    back as the filter tree, and selects the rows the tree describes. */
module FilterMeaning {
  import opened Prelude
  import opened Rsql
  import opened Filter
  import Sql
  import opened SqlTokens
  import opened SqlText
  import LikeText = Like

  // ---------------------------------------------------------------- acceptance

  predicate LeafAccepted(fields: seq<FieldSpec>, field: string, op: RsqlOp, values: seq<string>) {
    var f := Find(fields, field);
    && f.Some?
    && !f.value.sensitive
    && OpValidForType(op, f.value.ty)
    && (op.In? || op.Out? ==> values != [])
    && (op.Between? ==> |values| == 2)
  }

  predicate Accepted(fields: seq<FieldSpec>, node: FilterNode)
    decreases node, 0
  {
    match node
    case Leaf(field, op, values) => LeafAccepted(fields, field, op, values)
    case And(cs) => AllAccepted(fields, cs)
    case Or(cs) => AllAccepted(fields, cs)
  }

  predicate AllAccepted(fields: seq<FieldSpec>, nodes: seq<FilterNode>)
    decreases nodes, 1
  {
    nodes == [] || (Accepted(fields, nodes[0]) && AllAccepted(fields, nodes[1..]))
  }

  /** The values a tree binds, left to right. */
  function Params(node: FilterNode): seq<string>
    decreases node, 0
  {
    match node
    case Leaf(_, op, values) => LeafParams(op, values)
    case And(cs) => AllParams(cs)
    case Or(cs) => AllParams(cs)
  }

  function AllParams(nodes: seq<FilterNode>): seq<string>
    decreases nodes, 1
  {
    if nodes == [] then [] else Params(nodes[0]) + AllParams(nodes[1..])
  }

  predicate SortAccepted(fields: seq<FieldSpec>, sort: seq<SortSpec>) {
    forall i :: 0 <= i < |sort| ==> Find(fields, sort[i].field).Some? && !Find(fields, sort[i].field).value.sensitive
  }

  lemma {:induction false} EmitAccepts(fields: seq<FieldSpec>, node: FilterNode, n: nat)
    ensures Emit(fields, node, n).Ok? <==> Accepted(fields, node)
    ensures Emit(fields, node, n).Ok? ==> Emit(fields, node, n).value.params == Params(node)
    decreases node, 0
  {
    match node
    case Leaf(_, _, _) =>
    case And(cs) => EmitAllAccepts(fields, cs, n);
    case Or(cs) => EmitAllAccepts(fields, cs, n);
  }

  lemma {:induction false} EmitAllAccepts(fields: seq<FieldSpec>, nodes: seq<FilterNode>, n: nat)
    ensures EmitAll(fields, nodes, n).Ok? <==> AllAccepted(fields, nodes)
    ensures EmitAll(fields, nodes, n).Ok? ==> EmitAll(fields, nodes, n).value.params == AllParams(nodes)
    decreases nodes, 1
  {
    if nodes != [] {
      EmitAccepts(fields, nodes[0], n);
      EmitAllAccepts(fields, nodes[1..], n + |Params(nodes[0])|);
    }
  }

  lemma {:induction false} SortAccepts(fields: seq<FieldSpec>, sort: seq<SortSpec>)
    ensures SortParts(fields, sort).Ok? <==> SortAccepted(fields, sort)
  {
    if sort != [] {
      var k := |sort| - 1;
      SortAccepts(fields, sort[..k]);
      assert forall i :: 0 <= i < k ==> sort[..k][i] == sort[i];
    }
  }

  /** `build` succeeds exactly when every leaf and every sort key names a known, non-sensitive
      field and every leaf has an operator and a value count its type allows. */
  lemma BuildAccepts(filter: Option<FilterNode>, sort: seq<SortSpec>, fields: seq<FieldSpec>, start: nat)
    ensures BuildSpec(filter, sort, fields, start).Ok?
            <==> (filter.Some? ==> Accepted(fields, filter.value)) && SortAccepted(fields, sort)
    ensures BuildSpec(filter, sort, fields, start).Ok? ==>
              BuildSpec(filter, sort, fields, start).value.params == if filter.None? then [] else Params(filter.value)
  {
    hide Emit, Accepted, Params, SortParts, SortAccepted;
    if filter.Some? {
      EmitAccepts(fields, filter.value, start);
    }
    SortAccepts(fields, sort);
  }

  // ---------------------------------------------------------------- translation

  function Refs(n: nat, count: nat, cast: Option<string>): seq<Sql.Operand> {
    seq(count, i requires 0 <= i => Sql.ParamRef(n + i, cast))
  }

  function LeafPred(col: string, op: RsqlOp, cast: Option<string>, count: nat, n: nat): Sql.Predicate {
    match op
    case Null(b) => Sql.IsNull(col, !b)
    case In => Sql.InList(col, false, Refs(n, count, cast))
    case Out => Sql.InList(col, true, Refs(n, count, cast))
    case Between => Sql.Between(col, Sql.ParamRef(n, cast), Sql.ParamRef(n + 1, cast))
    case Like => Sql.Matches(col, false, Sql.ParamRef(n, cast))
    case Ilike => Sql.Matches(col, true, Sql.ParamRef(n, cast))
    case Contains => Sql.Matches(col, true, Sql.ParamRef(n, cast))
    case Starts => Sql.Matches(col, true, Sql.ParamRef(n, cast))
    case Ends => Sql.Matches(col, true, Sql.ParamRef(n, cast))
    case _ => Sql.Compare(col, CmpSymbol(op), Sql.ParamRef(n, cast))
  }

  /** The condition a tree stands for when its first placeholder is `n`. */
  function Condition(fields: seq<FieldSpec>, node: FilterNode, n: nat): Sql.Expr
    requires Accepted(fields, node)
    decreases node, 0
  {
    match node
    case Leaf(field, op, values) =>
      var spec := Find(fields, field).value;
      Sql.Pred(LeafPred(spec.column, op, LeafCast(op, spec.ty), |values|, n))
    case And(cs) => Sql.All(Conditions(fields, cs, n))
    case Or(cs) => Sql.Any(Conditions(fields, cs, n))
  }

  function Conditions(fields: seq<FieldSpec>, nodes: seq<FilterNode>, n: nat): (r: seq<Sql.Expr>)
    requires AllAccepted(fields, nodes)
    ensures |r| == |nodes|
    decreases nodes, 1
  {
    if nodes == [] then []
    else [Condition(fields, nodes[0], n)] + Conditions(fields, nodes[1..], n + |Params(nodes[0])|)
  }

  /** Column expressions the endpoint tables contain: one word, not a keyword. */
  predicate ColumnOk(col: string) { IsWord(col) && !Sql.Keyword(col) }

  predicate FieldsOk(fields: seq<FieldSpec>) { forall i :: 0 <= i < |fields| ==> ColumnOk(fields[i].column) }

  // ---------------------------------------------------------------- texts to tokens

  lemma {:induction false} DecimalReads(n: nat)
    ensures Decimal(n) != "" && Sql.AllDigits(Decimal(n)) && Sql.Number(Decimal(n)) == n
    ensures NoTick(Decimal(n))
  {
    var d := Decimal(n);
    if n < 10 {
      assert d[..0] == "";
    } else {
      DecimalReads(n / 10);
      assert d[..|d| - 1] == Decimal(n / 10);
      assert forall i :: 0 <= i < |d| - 1 ==> d[i] == Decimal(n / 10)[i];
    }
  }

  predicate CastOk(cast: Option<string>) {
    cast.Some? ==> cast.value == "double precision" || (IsWord(cast.value) && cast.value != "double")
  }

  lemma CastLex(t: string)
    requires CastOk(Some(t))
    ensures Sql.Lex(t) == if t == "double precision" then [Sql.Word("double"), Sql.Word("precision")] else [Sql.Word(t)]
    ensures NoTick(t)
  {
    hide Sql.Lex;
    if t == "double precision" {
      assert t == "double" + " " + "precision";
      LexSpaced("double", "precision");
      LexWord("double");
      LexWord("precision");
    } else {
      LexWord(t);
    }
  }

  lemma PlaceholderLex(n: nat, cast: Option<string>)
    requires CastOk(cast)
    ensures Sql.Lex(Placeholder(n, cast)) == OperandToks(Sql.ParamRef(n, cast))
    ensures NoTick(Placeholder(n, cast)) && OperandOk(Sql.ParamRef(n, cast))
  {
    hide Sql.Lex, Decimal, IsWord;
    DecimalReads(n);
    match cast
    case None =>
      assert "$" + Decimal(n) == "$" + Decimal(n) + "";
      LexNumber(Decimal(n), "");
      EmptyLex();
    case Some(t) =>
      CastLex(t);
      assert "$" + Decimal(n) + "::" + t == "$" + Decimal(n) + ("::" + t);
      LexNumber(Decimal(n), "::" + t);
      LexCast(t);
  }

  lemma EmptyLex()
    ensures Sql.Lex("") == []
  {
  }

  lemma {:induction false} PlaceholdersLex(n: nat, count: nat, cast: Option<string>)
    requires CastOk(cast) && count >= 1
    ensures Sql.Lex(Join(Placeholders(n, count, cast), ", ")) == ItemsToks(Refs(n, count, cast))
    ensures NoTick(Join(Placeholders(n, count, cast), ", "))
    decreases count
  {
    hide Sql.Lex, Placeholder, OperandToks;
    var phs := Placeholders(n, count, cast);
    var refs := Refs(n, count, cast);
    PlaceholderLex(n, cast);
    if count == 1 {
      assert phs == [Placeholder(n, cast)] && refs[1..] == [];
      AppendNil(OperandToks(refs[0]));
    } else {
      assert phs[1..] == Placeholders(n + 1, count - 1, cast) && refs[1..] == Refs(n + 1, count - 1, cast);
      PlaceholdersLex(n + 1, count - 1, cast);
      var rest := Join(phs[1..], ", ");
      assert phs[0] + ", " + rest == phs[0] + ("," + (" " + rest));
      LexAppend(phs[0], "," + (" " + rest));
      LexComma(" " + rest);
      LexSpace(rest);
    }
  }

  lemma TwoWords(a: string, b: string)
    requires IsWord(a) && IsWord(b)
    ensures Sql.Lex(a + " " + b) == [Sql.Word(a), Sql.Word(b)] && NoTick(a + " " + b)
  {
    hide Sql.Lex;
    LexSpaced(a, b);
    LexWord(a);
    LexWord(b);
  }

  lemma NullLex(b: bool)
    ensures Sql.Lex(if b then "IS NULL" else "IS NOT NULL")
            == if b then [Sql.Word("IS"), Sql.Word("NULL")] else [Sql.Word("IS"), Sql.Word("NOT"), Sql.Word("NULL")]
  {
    hide Sql.Lex;
    if b {
      assert "IS NULL" == "IS" + " " + "NULL";
      TwoWords("IS", "NULL");
    } else {
      assert "IS NOT NULL" == "IS" + " " + ("NOT" + " " + "NULL");
      LexSpaced("IS", "NOT" + " " + "NULL");
      LexWord("IS");
      TwoWords("NOT", "NULL");
    }
  }

  lemma ListLex(kw: string, n: nat, count: nat, cast: Option<string>)
    requires CastOk(cast) && count >= 1 && NoTick(kw)
    ensures var text := kw + " " + ("(" + (Join(Placeholders(n, count, cast), ", ") + ")"));
            && Sql.Lex(text) == Sql.Lex(kw) + ([Sql.LParen] + (ItemsToks(Refs(n, count, cast)) + [Sql.RParen]))
            && NoTick(text)
  {
    hide Sql.Lex, Join, Placeholders, ItemsToks;
    var items := Join(Placeholders(n, count, cast), ", ");
    PlaceholdersLex(n, count, cast);
    LexSpaced(kw, "(" + (items + ")"));
    LexOpen(items + ")");
    LexAppend(items, ")");
    LexClose();
  }

  lemma BetweenLex(n: nat, cast: Option<string>)
    requires CastOk(cast)
    ensures var text := "BETWEEN" + " " + (Placeholder(n, cast) + " " + ("AND" + " " + Placeholder(n + 1, cast)));
            && Sql.Lex(text) == [Sql.Word("BETWEEN")] + (OperandToks(Sql.ParamRef(n, cast))
                                + ([Sql.Word("AND")] + OperandToks(Sql.ParamRef(n + 1, cast))))
            && NoTick(text)
  {
    hide Sql.Lex, Placeholder, OperandToks;
    PlaceholderLex(n, cast);
    PlaceholderLex(n + 1, cast);
    LexSpaced("BETWEEN", Placeholder(n, cast) + " " + ("AND" + " " + Placeholder(n + 1, cast)));
    LexSpaced(Placeholder(n, cast), "AND" + " " + Placeholder(n + 1, cast));
    LexSpaced("AND", Placeholder(n + 1, cast));
    LexWord("BETWEEN");
    LexWord("AND");
  }

  predicate LeafShape(op: RsqlOp, count: nat) {
    (op.In? || op.Out? ==> count >= 1) && (op.Between? ==> count == 2)
  }

  lemma LeafPredOk(col: string, op: RsqlOp, cast: Option<string>, count: nat, n: nat)
    requires ColumnOk(col) && CastOk(cast) && LeafShape(op, count)
    ensures PredOk(LeafPred(col, op, cast, count, n))
  {
    assert forall k: nat :: OperandOk(Sql.ParamRef(k, cast));
  }

  /** What follows the column of a leaf's text, and its tokens. */
  lemma TestLex(col: string, op: RsqlOp, cast: Option<string>, count: nat, n: nat) returns (test: string)
    requires ColumnOk(col) && CastOk(cast) && LeafShape(op, count)
    ensures PredOk(LeafPred(col, op, cast, count, n))
    ensures LeafText(col, op, cast, count, n) == col + " " + test && NoTick(test)
    ensures Sql.Lex(test) == TestToks(LeafPred(col, op, cast, count, n))
  {
    hide Sql.Lex, Placeholder, OperandToks, Join, Placeholders, ItemsToks, CastOk;
    LeafPredOk(col, op, cast, count, n);
    match op
    case Null(b) =>
      test := if b then "IS NULL" else "IS NOT NULL";
      NullLex(b);
    case In =>
      ListLex("IN", n, count, cast);
      LexWord("IN");
      test := "IN" + " " + ("(" + (Join(Placeholders(n, count, cast), ", ") + ")"));
      assert [Sql.Word("IN"), Sql.LParen] == [Sql.Word("IN")] + [Sql.LParen];
      Assoc([Sql.Word("IN")], [Sql.LParen], ItemsToks(Refs(n, count, cast)) + [Sql.RParen]);
    case Out =>
      ListLex("NOT IN", n, count, cast);
      assert "NOT IN" == "NOT" + " " + "IN";
      TwoWords("NOT", "IN");
      test := "NOT IN" + " " + ("(" + (Join(Placeholders(n, count, cast), ", ") + ")"));
      assert [Sql.Word("NOT"), Sql.Word("IN"), Sql.LParen] == [Sql.Word("NOT"), Sql.Word("IN")] + [Sql.LParen];
      Assoc([Sql.Word("NOT"), Sql.Word("IN")], [Sql.LParen], ItemsToks(Refs(n, count, cast)) + [Sql.RParen]);
    case Between =>
      BetweenLex(n, cast);
      test := "BETWEEN" + " " + (Placeholder(n, cast) + " " + ("AND" + " " + Placeholder(n + 1, cast)));
    case _ =>
      PlaceholderLex(n, cast);
      if LikeFamily(op) {
        var kw := if op.Like? then "LIKE" else "ILIKE";
        LexWord(kw);
        LexSpaced(kw, Placeholder(n, cast));
        test := kw + " " + Placeholder(n, cast);
      } else {
        LexCmp(CmpSymbol(op));
        LexSpaced(CmpSymbol(op), Placeholder(n, cast));
        test := CmpSymbol(op) + " " + Placeholder(n, cast);
      }
  }

  lemma LeafLex(col: string, op: RsqlOp, cast: Option<string>, count: nat, n: nat)
    requires ColumnOk(col) && CastOk(cast) && LeafShape(op, count)
    ensures var e := Sql.Pred(LeafPred(col, op, cast, count, n)); var text := LeafText(col, op, cast, count, n);
            ExprOk(e) && Sql.Lex(text) == ExprToks(e) && NoTick(text) && text != ""
  {
    hide Sql.Lex, LeafText, TestToks, PredOk, CastOk;
    var test := TestLex(col, op, cast, count, n);
    LexSpaced(col, test);
    LexWord(col);
  }

  lemma {:induction false} NodeLex(fields: seq<FieldSpec>, node: FilterNode, n: nat)
    requires FieldsOk(fields) && Accepted(fields, node) && Emit(fields, node, n).Ok?
    ensures ExprOk(Condition(fields, node, n))
    ensures Sql.Lex(Emit(fields, node, n).value.text) == ExprToks(Condition(fields, node, n))
    ensures NoTick(Emit(fields, node, n).value.text) && Emit(fields, node, n).value.text != ""
    decreases node, 0
  {
    hide Sql.Lex, LeafText, LeafPred, Join, FieldsOk, AllOk, CastOk, ColumnOk;
    match node
    case Leaf(field, op, values) =>
      var spec := Find(fields, field).value;
      assert ColumnOk(spec.column) by { FieldColumn(fields, spec); }
      assert CastOk(LeafCast(op, spec.ty)) by { LeafCastOk(op, spec.ty); }
      LeafLex(spec.column, op, LeafCast(op, spec.ty), |values|, n);
    case And(cs) =>
      NodesLex(fields, cs, n, "AND");
      assert " AND " == " " + "AND" + " ";
      Wrap(Join(EmitAll(fields, cs, n).value.texts, " AND "));
    case Or(cs) =>
      NodesLex(fields, cs, n, "OR");
      assert " OR " == " " + "OR" + " ";
      Wrap(Join(EmitAll(fields, cs, n).value.texts, " OR "));
  }

  lemma FieldColumn(fields: seq<FieldSpec>, f: FieldSpec)
    requires FieldsOk(fields) && f in fields
    ensures ColumnOk(f.column)
  {
  }

  lemma LeafCastOk(op: RsqlOp, ty: FieldType)
    ensures CastOk(LeafCast(op, ty))
  {
  }

  lemma Wrap(inner: string)
    requires NoTick(inner)
    ensures Sql.Lex("(" + (inner + ")")) == [Sql.LParen] + (Sql.Lex(inner) + [Sql.RParen])
    ensures NoTick("(" + (inner + ")"))
  {
    hide Sql.Lex;
    LexOpen(inner + ")");
    LexAppend(inner, ")");
    LexClose();
  }

  lemma {:induction false} NodesLex(fields: seq<FieldSpec>, nodes: seq<FilterNode>, n: nat, kw: string)
    requires FieldsOk(fields) && AllAccepted(fields, nodes) && EmitAll(fields, nodes, n).Ok?
    requires kw == "AND" || kw == "OR"
    ensures AllOk(Conditions(fields, nodes, n))
    ensures var text := Join(EmitAll(fields, nodes, n).value.texts, " " + kw + " ");
            Sql.Lex(text) == GroupToks(Conditions(fields, nodes, n), kw) && NoTick(text)
    ensures |EmitAll(fields, nodes, n).value.texts| == |nodes|
    decreases nodes, 1
  {
    hide Sql.Lex, FieldsOk, ExprToks, Condition, Emit, Accepted, ExprOk, Params;
    if nodes == [] {
      EmptyLex();
    } else {
      NodeLex(fields, nodes[0], n);
      EmitAccepts(fields, nodes[0], n);
      var m := n + |Params(nodes[0])|;
      NodesLex(fields, nodes[1..], m, kw);
      var es := Conditions(fields, nodes, n);
      ConsParts(Condition(fields, nodes[0], n), Conditions(fields, nodes[1..], m));
      var texts := EmitAll(fields, nodes, n).value.texts;
      ConsParts(texts[0], EmitAll(fields, nodes[1..], m).value.texts);
      JoinLex(texts, es, kw);
    }
  }

  /** Joining one more text adds its tokens and the connective. */
  lemma JoinLex(texts: seq<string>, es: seq<Sql.Expr>, kw: string)
    requires |texts| == |es| >= 1 && AllOk(es) && (kw == "AND" || kw == "OR")
    requires Sql.Lex(texts[0]) == ExprToks(es[0]) && NoTick(texts[0])
    requires var rest := Join(texts[1..], " " + kw + " "); Sql.Lex(rest) == GroupToks(es[1..], kw) && NoTick(rest)
    ensures var text := Join(texts, " " + kw + " "); Sql.Lex(text) == GroupToks(es, kw) && NoTick(text)
  {
    hide Sql.Lex, ExprToks, ExprOk;
    if |texts| == 1 {
      assert es[1..] == [];
      AppendNil(ExprToks(es[0]));
    } else {
      var rest := Join(texts[1..], " " + kw + " ");
      assert NoTick(" " + kw + " ");
      assert IsWord(kw);
      LexAnd(texts[0], kw, rest);
    }
  }

  // ---------------------------------------------------------------- meaning

  /** The plain reading of a leaf on a column value; a missing value passes only `=null=true`. */
  predicate LeafHolds(db: Sql.Db, op: RsqlOp, ty: FieldType, values: seq<string>, x: Option<Sql.Val>) {
    if x.None? then op == Null(true)
    else
      var v := x.value;
      var first := Sql.BindVal(db, LeafCast(op, ty), BoundText(op, First(values)));
      match op
      case Null(b) => !b
      case Eq => v == first
      case Neq => v != first
      case Gt => db.less(first, v)
      case Ge => v == first || db.less(first, v)
      case Lt => db.less(v, first)
      case Le => v == first || db.less(v, first)
      case In => exists i :: 0 <= i < |values| && v == Sql.BindVal(db, CastOf(ty), values[i])
      case Out => forall i :: 0 <= i < |values| ==> v != Sql.BindVal(db, CastOf(ty), values[i])
      case Between =>
        |values| == 2
        && (var lo := Sql.BindVal(db, CastOf(ty), values[0]); v == lo || db.less(lo, v))
        && (var hi := Sql.BindVal(db, CastOf(ty), values[1]); v == hi || db.less(v, hi))
      case Like => v.Text? && LikeText.Match(First(values), v.s)
      case Ilike => v.Text? && LikeText.ILike(First(values), v.s)
      case Contains => v.Text? && LikeText.ILike("%" + First(values) + "%", v.s)
      case Starts => v.Text? && LikeText.ILike(First(values) + "%", v.s)
      case Ends => v.Text? && LikeText.ILike("%" + First(values), v.s)
  }

  /** The plain two-valued reading of a tree on a row. */
  predicate Holds(db: Sql.Db, fields: seq<FieldSpec>, node: FilterNode, row: Sql.Row)
    requires Accepted(fields, node)
    decreases node, 0
  {
    match node
    case Leaf(field, op, values) =>
      var spec := Find(fields, field).value;
      LeafHolds(db, op, spec.ty, values, Sql.Column(row, spec.column))
    case And(cs) => AllHold(db, fields, cs, row)
    case Or(cs) => AnyHolds(db, fields, cs, row)
  }

  predicate AllHold(db: Sql.Db, fields: seq<FieldSpec>, nodes: seq<FilterNode>, row: Sql.Row)
    requires AllAccepted(fields, nodes)
    decreases nodes, 1
  {
    nodes == [] || (Holds(db, fields, nodes[0], row) && AllHold(db, fields, nodes[1..], row))
  }

  predicate AnyHolds(db: Sql.Db, fields: seq<FieldSpec>, nodes: seq<FilterNode>, row: Sql.Row)
    requires AllAccepted(fields, nodes)
    decreases nodes, 1
  {
    nodes != [] && (Holds(db, fields, nodes[0], row) || AnyHolds(db, fields, nodes[1..], row))
  }

  /** The tree's parameters sit at their places among the bound values. */
  predicate Bound(binds: seq<string>, n: nat, params: seq<string>) {
    n >= 1 && n - 1 + |params| <= |binds| && forall i :: 0 <= i < |params| ==> binds[n - 1 + i] == params[i]
  }

  lemma BoundParts(binds: seq<string>, n: nat, a: seq<string>, b: seq<string>)
    requires Bound(binds, n, a + b)
    ensures Bound(binds, n, a) && Bound(binds, n + |a|, b)
  {
    assert forall i :: 0 <= i < |a| ==> (a + b)[i] == a[i];
    assert forall i :: 0 <= i < |b| ==> (a + b)[|a| + i] == b[i];
  }

  lemma BoundAt(db: Sql.Db, binds: seq<string>, n: nat, params: seq<string>, i: nat, cast: Option<string>)
    requires Bound(binds, n, params) && i < |params|
    ensures Sql.OperandVal(db, binds, Sql.ParamRef(n + i, cast)) == Some(Sql.BindVal(db, cast, params[i]))
  {
    assert binds[n - 1 + i] == params[i];
  }

  lemma {:induction false} InListMeans(db: Sql.Db, binds: seq<string>, n: nat, values: seq<string>,
                                       cast: Option<string>, x: Option<Sql.Val>)
    requires Bound(binds, n, values)
    ensures var t := Sql.In3(db, binds, x, Refs(n, |values|, cast));
            && (x.None? && values != [] ==> t == Sql.Unknown)
            && (x.Some? ==> t == Sql.Lift(exists i :: 0 <= i < |values| && x.value == Sql.BindVal(db, cast, values[i])))
    decreases |values|
  {
    hide Sql.BindVal, Sql.OperandVal;
    if values != [] {
      var rest := values[1..];
      assert [values[0]] + rest == values;
      BoundParts(binds, n, [values[0]], rest);
      BoundAt(db, binds, n, values, 0, cast);
      InListMeans(db, binds, n + 1, rest, cast, x);
      assert Refs(n, |values|, cast)[1..] == Refs(n + 1, |rest|, cast);
      assert Refs(n, |values|, cast)[0] == Sql.ParamRef(n, cast);
      if x.Some? && exists i :: 0 <= i < |values| && x.value == Sql.BindVal(db, cast, values[i]) {
        var i :| 0 <= i < |values| && x.value == Sql.BindVal(db, cast, values[i]);
        assert i > 0 ==> values[i] == rest[i - 1];
      }
      if rest == [] {
        assert Sql.In3(db, binds, x, []) == Sql.False;
      }
    }
  }

  lemma CompareMeans(db: Sql.Db, col: string, op: RsqlOp, ty: FieldType, values: seq<string>, n: nat,
                     binds: seq<string>, row: Sql.Row)
    requires (op.Eq? || op.Neq? || Scalar(op)) && Bound(binds, n, LeafParams(op, values))
    ensures Sql.EvalPred(db, binds, row, LeafPred(col, op, LeafCast(op, ty), |values|, n)) == Sql.True
            <==> LeafHolds(db, op, ty, values, Sql.Column(row, col))
  {
    hide Sql.BindVal, Sql.OperandVal, CastOf, LikeText.ILike, LikeText.Match, Bound;
    BoundAt(db, binds, n, LeafParams(op, values), 0, LeafCast(op, ty));
  }

  lemma MatchMeans(db: Sql.Db, col: string, op: RsqlOp, ty: FieldType, values: seq<string>, n: nat,
                   binds: seq<string>, row: Sql.Row)
    requires LikeFamily(op) && Bound(binds, n, LeafParams(op, values))
    ensures Sql.EvalPred(db, binds, row, LeafPred(col, op, LeafCast(op, ty), |values|, n)) == Sql.True
            <==> LeafHolds(db, op, ty, values, Sql.Column(row, col))
  {
    hide Sql.BindVal, Sql.OperandVal, CastOf, LikeText.ILike, LikeText.Match, Bound;
    BoundAt(db, binds, n, LeafParams(op, values), 0, None);
    NoCastText(db, BoundText(op, First(values)));
  }

  lemma LeafMeans(db: Sql.Db, col: string, op: RsqlOp, ty: FieldType, values: seq<string>, n: nat,
                  binds: seq<string>, row: Sql.Row)
    requires LeafShape(op, |values|) && Bound(binds, n, LeafParams(op, values))
    ensures Sql.EvalPred(db, binds, row, LeafPred(col, op, LeafCast(op, ty), |values|, n)) == Sql.True
            <==> LeafHolds(db, op, ty, values, Sql.Column(row, col))
  {
    hide Sql.BindVal, Sql.OperandVal, CastOf, LikeText.ILike, LikeText.Match, Bound, Sql.In3, Refs;
    if LikeFamily(op) {
      MatchMeans(db, col, op, ty, values, n, binds, row);
    } else if op.In? || op.Out? {
      InListMeans(db, binds, n, values, LeafCast(op, ty), Sql.Column(row, col));
    } else if op.Between? {
      BoundAt(db, binds, n, values, 0, LeafCast(op, ty));
      BoundAt(db, binds, n, values, 1, LeafCast(op, ty));
    } else if !op.Null? {
      CompareMeans(db, col, op, ty, values, n, binds, row);
    }
  }

  lemma NoCastText(db: Sql.Db, t: string)
    ensures Sql.BindVal(db, None, t) == Sql.Text(t)
  {
  }

  lemma CollectMeans(db: Sql.Db, binds: seq<string>, row: Sql.Row, es: seq<Sql.Expr>, conj: bool)
    requires es != []
    ensures Sql.Eval(db, binds, row, Collect(es, conj)) == Sql.True
            <==> (if conj then Sql.EvalAll(db, binds, row, es) else Sql.EvalAny(db, binds, row, es)) == Sql.True
  {
    if |es| == 1 {
      assert es[1..] == [];
    }
  }

  predicate NoEmptyNode(node: FilterNode)
    decreases node, 0
  {
    match node
    case Leaf(_, _, _) => true
    case And(cs) => cs != [] && NoEmptyNodes(cs)
    case Or(cs) => cs != [] && NoEmptyNodes(cs)
  }

  predicate NoEmptyNodes(nodes: seq<FilterNode>)
    decreases nodes, 1
  {
    nodes == [] || (NoEmptyNode(nodes[0]) && NoEmptyNodes(nodes[1..]))
  }

  lemma {:induction false} NoEmptySame(fields: seq<FieldSpec>, node: FilterNode, n: nat)
    requires Accepted(fields, node)
    ensures NoEmptyGroup(Condition(fields, node, n)) == NoEmptyNode(node)
    decreases node, 0
  {
    match node
    case Leaf(_, _, _) =>
    case And(cs) => NoEmptySameAll(fields, cs, n);
    case Or(cs) => NoEmptySameAll(fields, cs, n);
  }

  lemma {:induction false} NoEmptySameAll(fields: seq<FieldSpec>, nodes: seq<FilterNode>, n: nat)
    requires AllAccepted(fields, nodes)
    ensures NoneEmpty(Conditions(fields, nodes, n)) == NoEmptyNodes(nodes)
    decreases nodes, 1
  {
    hide Condition, NoEmptyGroup, NoEmptyNode, Params;
    if nodes != [] {
      var m := n + |Params(nodes[0])|;
      NoEmptySame(fields, nodes[0], n);
      NoEmptySameAll(fields, nodes[1..], m);
      ConsParts(Condition(fields, nodes[0], n), Conditions(fields, nodes[1..], m));
    }
  }

  lemma {:induction false} WellFormedNoEmpty(node: FilterNode)
    requires WellFormed(node)
    ensures NoEmptyNode(node)
    decreases node, 0
  {
    match node
    case Leaf(_, _, _) =>
    case And(cs) => WellFormedNoEmptyAll(cs);
    case Or(cs) => WellFormedNoEmptyAll(cs);
  }

  lemma {:induction false} WellFormedNoEmptyAll(nodes: seq<FilterNode>)
    requires forall i :: 0 <= i < |nodes| ==> WellFormed(nodes[i])
    ensures NoEmptyNodes(nodes)
    decreases nodes, 1
  {
    if nodes != [] {
      WellFormedNoEmpty(nodes[0]);
      WellFormedNoEmptyAll(nodes[1..]);
    }
  }

  lemma {:induction false} NodeMeans(db: Sql.Db, fields: seq<FieldSpec>, node: FilterNode, n: nat,
                                     binds: seq<string>, row: Sql.Row)
    requires Accepted(fields, node) && NoEmptyNode(node) && Bound(binds, n, Params(node))
    ensures Sql.Eval(db, binds, row, Norm(Condition(fields, node, n))) == Sql.True
            <==> Holds(db, fields, node, row)
    decreases node, 0
  {
    hide LeafPred, LeafHolds, Bound, Sql.EvalPred;
    match node
    case Leaf(field, op, values) =>
      var spec := Find(fields, field).value;
      LeafMeans(db, spec.column, op, spec.ty, values, n, binds, row);
    case And(cs) =>
      NodesMean(db, fields, cs, n, binds, row);
      CollectMeans(db, binds, row, NormAll(Conditions(fields, cs, n)), true);
    case Or(cs) =>
      NodesMean(db, fields, cs, n, binds, row);
      CollectMeans(db, binds, row, NormAll(Conditions(fields, cs, n)), false);
  }

  lemma {:induction false} NodesMean(db: Sql.Db, fields: seq<FieldSpec>, nodes: seq<FilterNode>, n: nat,
                                     binds: seq<string>, row: Sql.Row)
    requires AllAccepted(fields, nodes) && NoEmptyNodes(nodes) && Bound(binds, n, AllParams(nodes))
    ensures Sql.EvalAll(db, binds, row, NormAll(Conditions(fields, nodes, n))) == Sql.True
            <==> AllHold(db, fields, nodes, row)
    ensures Sql.EvalAny(db, binds, row, NormAll(Conditions(fields, nodes, n))) == Sql.True
            <==> AnyHolds(db, fields, nodes, row)
    decreases nodes, 1
  {
    hide Condition, Holds, Bound, Norm, NoEmptyNode, Accepted, Params, Sql.Eval;
    if nodes != [] {
      var m := n + |Params(nodes[0])|;
      BoundParts(binds, n, Params(nodes[0]), AllParams(nodes[1..]));
      NodeMeans(db, fields, nodes[0], n, binds, row);
      NodesMean(db, fields, nodes[1..], m, binds, row);
      var es := Conditions(fields, nodes, n);
      ConsParts(Condition(fields, nodes[0], n), Conditions(fields, nodes[1..], m));
      NormAllParts(es);
      ConsParts(Norm(es[0]), NormAll(es[1..]));
    }
  }

  // ---------------------------------------------------------------- placeholders and columns

  function Range(n: nat, count: nat): seq<nat> {
    seq(count, i requires 0 <= i => n + i)
  }

  function OperandRefs(o: Sql.Operand): seq<nat> { if o.ParamRef? then [o.n] else [] }

  function ItemRefs(os: seq<Sql.Operand>): seq<nat> {
    if os == [] then [] else OperandRefs(os[0]) + ItemRefs(os[1..])
  }

  /** The placeholders of a condition in reading order. */
  function ExprRefs(e: Sql.Expr): seq<nat>
    decreases e, 0
  {
    match e
    case All(es) => AllRefs(es)
    case Any(es) => AllRefs(es)
    case Pred(p) =>
      match p
      case Compare(_, _, rhs) => OperandRefs(rhs)
      case InList(_, _, items) => ItemRefs(items)
      case Between(_, lo, hi) => OperandRefs(lo) + OperandRefs(hi)
      case Matches(_, _, rhs) => OperandRefs(rhs)
      case IsNull(_, _) => []
  }

  function AllRefs(es: seq<Sql.Expr>): seq<nat>
    decreases es, 1
  {
    if es == [] then [] else ExprRefs(es[0]) + AllRefs(es[1..])
  }

  function ExprColumns(e: Sql.Expr): set<string>
    decreases e, 0
  {
    match e
    case Pred(p) => {p.col}
    case All(es) => AllColumns(es)
    case Any(es) => AllColumns(es)
  }

  function AllColumns(es: seq<Sql.Expr>): set<string>
    decreases es, 1
  {
    if es == [] then {} else ExprColumns(es[0]) + AllColumns(es[1..])
  }

  /** A column some filterable field maps to. */
  predicate Filterable(fields: seq<FieldSpec>, col: string) {
    exists f :: f in fields && f.column == col && !f.sensitive
  }

  lemma {:induction false} ListRefs(n: nat, count: nat, cast: Option<string>)
    ensures ItemRefs(Refs(n, count, cast)) == Range(n, count)
    decreases count
  {
    if count > 0 {
      assert Refs(n, count, cast)[1..] == Refs(n + 1, count - 1, cast);
      ListRefs(n + 1, count - 1, cast);
      assert Range(n, count) == [n] + Range(n + 1, count - 1);
    }
  }

  lemma LeafRefs(col: string, op: RsqlOp, cast: Option<string>, values: seq<string>, n: nat)
    requires LeafShape(op, |values|)
    ensures ExprRefs(Sql.Pred(LeafPred(col, op, cast, |values|, n))) == Range(n, |LeafParams(op, values)|)
  {
    hide BoundText;
    if op.In? || op.Out? {
      ListRefs(n, |values|, cast);
    } else if op.Between? {
      assert [n] + [n + 1] == Range(n, 2);
    } else if !op.Null? {
      assert [n] == Range(n, 1);
    }
  }

  /** The placeholders of a built tree are consecutive from the start index in reading order, one
      per parameter, and every column it mentions belongs to a non-sensitive field. */
  lemma {:induction false} NodeRefs(fields: seq<FieldSpec>, node: FilterNode, n: nat)
    requires Accepted(fields, node)
    ensures ExprRefs(Condition(fields, node, n)) == Range(n, |Params(node)|)
    ensures forall c :: c in ExprColumns(Condition(fields, node, n)) ==> Filterable(fields, c)
    decreases node, 0
  {
    hide LeafPred, Range;
    match node
    case Leaf(field, op, values) =>
      var spec := Find(fields, field).value;
      LeafRefs(spec.column, op, LeafCast(op, spec.ty), values, n);
      assert LeafPred(spec.column, op, LeafCast(op, spec.ty), |values|, n).col == spec.column by {
        LeafColumn(spec.column, op, LeafCast(op, spec.ty), |values|, n);
      }
    case And(cs) => NodesRefs(fields, cs, n);
    case Or(cs) => NodesRefs(fields, cs, n);
  }

  lemma LeafColumn(col: string, op: RsqlOp, cast: Option<string>, count: nat, n: nat)
    ensures LeafPred(col, op, cast, count, n).col == col
  {
  }

  lemma {:induction false} NodesRefs(fields: seq<FieldSpec>, nodes: seq<FilterNode>, n: nat)
    requires AllAccepted(fields, nodes)
    ensures AllRefs(Conditions(fields, nodes, n)) == Range(n, |AllParams(nodes)|)
    ensures forall c :: c in AllColumns(Conditions(fields, nodes, n)) ==> Filterable(fields, c)
    decreases nodes, 1
  {
    hide Condition, ExprRefs, ExprColumns, Params, Accepted, Filterable;
    if nodes != [] {
      var k := |Params(nodes[0])|;
      NodeRefs(fields, nodes[0], n);
      NodesRefs(fields, nodes[1..], n + k);
      ConsParts(Condition(fields, nodes[0], n), Conditions(fields, nodes[1..], n + k));
    }
  }

  // ---------------------------------------------------------------- which operator takes which type

  /** Null tests and equality take every type; membership every type but booleans; order and ranges
      the numbers and times; text patterns text alone. */
  lemma OperatorsOfTypes(op: RsqlOp, ty: FieldType)
    ensures (op.Null? || op.Eq? || op.Neq?) ==> OpValidForType(op, ty)
    ensures (op.In? || op.Out?) ==> (OpValidForType(op, ty) <==> ty != BoolType)
    ensures (op.Gt? || op.Ge? || op.Lt? || op.Le? || op.Between?) ==>
              (OpValidForType(op, ty) <==> ty in {IntType, FloatType, DateType, TimestampType, TimeType})
    ensures (op.Like? || op.Ilike? || op.Contains? || op.Starts? || op.Ends?) ==> (OpValidForType(op, ty) <==> ty == TextType)
  {
  }

  /** A parameter is cast to the type of its column, except text and the patterns of text operators. */
  lemma CastsOfTypes(op: RsqlOp, ty: FieldType)
    ensures LeafCast(op, ty).None? <==> ty == TextType || op.Like? || op.Ilike? || op.Contains? || op.Starts? || op.Ends?
    ensures LeafCast(op, ty).Some? ==>
              (LeafCast(op, ty).value, ty) in
                {("bigint", IntType), ("double precision", FloatType), ("boolean", BoolType), ("uuid", UuidType),
                 ("date", DateType), ("timestamptz", TimestampType), ("time", TimeType)}
  {
  }
}
