/** The tenant-scoped list queries: how the repositories glue the built WHERE text after their
    own predicates, and which rows the result selects. */
module ListQueries {
  import opened Prelude
  import opened Rsql
  import opened Filter
  import opened FilterMeaning
  import Sql
  import opened SqlTokens
  import opened SqlText

  const USER_FILTER_FIELDS: seq<FieldSpec> := [
    FieldSpec("id", "u.id", UuidType, false),
    FieldSpec("identityId", "u.identity_id", UuidType, false),
    FieldSpec("firstName", "i.first_name", TextType, false),
    FieldSpec("lastName", "i.last_name", TextType, false),
    FieldSpec("email", "i.email", TextType, false),
    FieldSpec("username", "u.username", TextType, false),
    FieldSpec("mobile", "i.mobile", TextType, false),
    FieldSpec("countryCode", "i.country_code", TextType, false),
    FieldSpec("status", "u.status", TextType, false),
    FieldSpec("mfaEnabled", "i.mfa_enabled", BoolType, false),
    FieldSpec("accessValidUntil", "u.access_valid_until", TimestampType, false),
    FieldSpec("createdAt", "u.created_at", TimestampType, false),
    FieldSpec("updatedAt", "u.updated_at", TimestampType, false),
    FieldSpec("passwordHash", "i.password_hash", TextType, true),
    FieldSpec("mfaSecret", "i.mfa_secret", TextType, true)
  ]

  lemma ColumnsOk1()
    ensures ColumnOk("u.id") && ColumnOk("u.identity_id") && ColumnOk("i.first_name") && ColumnOk("i.last_name")
  {
  }

  lemma ColumnsOk2()
    ensures ColumnOk("i.email") && ColumnOk("u.username") && ColumnOk("i.mobile") && ColumnOk("i.country_code")
  {
  }

  lemma ColumnsOk3()
    ensures ColumnOk("u.status") && ColumnOk("i.mfa_enabled")
  {
  }

  lemma ColumnsOk5()
    ensures ColumnOk("u.access_valid_until") && ColumnOk("u.created_at")
  {
  }

  lemma ColumnsOk4()
    ensures ColumnOk("u.updated_at") && ColumnOk("i.password_hash") && ColumnOk("i.mfa_secret")
  {
  }

  lemma UserFieldsOk()
    ensures FieldsOk(USER_FILTER_FIELDS)
  {
    hide ColumnOk;
    ColumnsOk1();
    ColumnsOk2();
    ColumnsOk3();
    ColumnsOk4();
    ColumnsOk5();
  }

  /** The WHERE text of `UsersRepo::list`. */
  method UserListWhere(includeArchived: bool, built: string) returns (whereSql: string)
    ensures whereSql == UserListText(includeArchived, built)
  {
    whereSql := "u.tenant_id = $1";
    if !includeArchived {
      whereSql := whereSql + " AND u.status != 'archived'";
    }
    if built != "" {
      whereSql := whereSql + " AND ";
      whereSql := whereSql + built;
    }
  }

  function Appended(built: string): string { if built == "" then "" else " AND " + built }

  function UserListText(includeArchived: bool, built: string): string {
    "u.tenant_id = $1" + ((if includeArchived then "" else " AND u.status != 'archived'") + Appended(built))
  }

  /** The WHERE text of `UsersRepo::list_by_group`. */
  function GroupListText(built: string): string {
    "u.tenant_id = $1 AND ug.group_id = $2" + Appended(built)
  }

  // ---------------------------------------------------------------- the fixed predicates

  function Equals(col: string, n: nat): Sql.Expr {
    Sql.Pred(Sql.Compare(col, "=", Sql.ParamRef(n, None)))
  }

  const NOT_ARCHIVED: Sql.Expr := Sql.Pred(Sql.Compare("u.status", "!=", Sql.TextLit("archived")))

  function UserListScope(includeArchived: bool): seq<Sql.Expr> {
    if includeArchived then [Equals("u.tenant_id", 1)] else [Equals("u.tenant_id", 1), NOT_ARCHIVED]
  }

  const GROUP_LIST_SCOPE: seq<Sql.Expr> := [Equals("u.tenant_id", 1), Equals("ug.group_id", 2)]

  // ---------------------------------------------------------------- tokens of the glued texts

  lemma TestColumnLex(col: string, op: string, n: nat)
    requires ColumnOk(col) && (op == "=" || op == "!=")
    ensures Sql.Lex(col + " " + (op + " " + Placeholder(n, None))) == ExprToks(Sql.Pred(Sql.Compare(col, op, Sql.ParamRef(n, None))))
    ensures NoTick(col + " " + (op + " " + Placeholder(n, None)))
  {
    hide Sql.Lex, Placeholder;
    LexSpaced(col, op + " " + Placeholder(n, None));
    LexSpaced(op, Placeholder(n, None));
    LexWord(col);
    LexCmp(op);
    PlaceholderLex(n, None);
    assert [Sql.Word(col)] + ([Sql.Cmp(op)] + [Sql.Param(n)]) == ExprToks(Sql.Pred(Sql.Compare(col, op, Sql.ParamRef(n, None))));
  }

  lemma TenantLex()
    ensures Sql.Lex("u.tenant_id = $1") == ExprToks(Equals("u.tenant_id", 1)) && NoTick("u.tenant_id = $1")
  {
    hide Sql.Lex;
    assert ColumnOk("u.tenant_id");
    assert "u.tenant_id = $1" == "u.tenant_id" + " " + ("=" + " " + Placeholder(1, None));
    TestColumnLex("u.tenant_id", "=", 1);
  }

  lemma GroupIdLex()
    ensures Sql.Lex("ug.group_id = $2") == ExprToks(Equals("ug.group_id", 2)) && NoTick("ug.group_id = $2")
  {
    hide Sql.Lex;
    assert ColumnOk("ug.group_id");
    assert "ug.group_id = $2" == "ug.group_id" + " " + ("=" + " " + Placeholder(2, None));
    TestColumnLex("ug.group_id", "=", 2);
  }

  lemma AppendedBoundary(built: string)
    ensures Boundary(Appended(built))
  {
  }

  lemma AppendedLex(built: string)
    requires built != ""
    ensures Sql.Lex(Appended(built)) == [Sql.Word("AND")] + Sql.Lex(built)
  {
    hide Sql.Lex;
    assert Appended(built) == "" + (" " + "AND" + " ") + built;
    LexAnd("", "AND", built);
    EmptyLex();
  }

  lemma NotArchivedText(more: string)
    ensures " AND u.status != 'archived'" + more
            == " " + ("AND" + " " + ("u.status" + " " + ("!=" + " " + ("'" + "archived" + "'" + more))))
  {
    var rest := "'" + "archived" + "'" + more;
    assert " AND u.status != 'archived'" + more == " AND u.status " + ("!= " + rest);
    assert "!= " + rest == "!=" + " " + rest;
    assert " AND u.status " == " " + ("AND" + " " + ("u.status" + " "));
  }

  lemma NotArchivedLex(more: string)
    ensures Sql.Lex(" AND u.status != 'archived'" + more) == [Sql.Word("AND")] + (ExprToks(NOT_ARCHIVED) + Sql.Lex(more))
  {
    hide Sql.Lex;
    var literal := "'" + "archived" + "'" + more;
    var text := "AND" + " " + ("u.status" + " " + ("!=" + " " + literal));
    NotArchivedText(more);
    LexSpace(text);
    LexSpaced("AND", "u.status" + " " + ("!=" + " " + literal));
    LexSpaced("u.status", "!=" + " " + literal);
    LexSpaced("!=", literal);
    LexWord("AND");
    assert ColumnOk("u.status");
    LexWord("u.status");
    LexCmp("!=");
    LexLiteral("archived", more);
  }

  lemma PairToks(a: Sql.Expr, b: Sql.Expr)
    requires ExprOk(a) && ExprOk(b)
    ensures AllOk([a]) && GroupToks([a], "AND") == ExprToks(a)
    ensures AllOk([a, b]) && GroupToks([a, b], "AND") == ExprToks(a) + ([Sql.Word("AND")] + ExprToks(b))
  {
    hide ExprToks, ExprOk;
    assert [a][1..] == [];
    assert [a, b][1..] == [b] && [b][1..] == [];
    AppendNil(ExprToks(a));
    AppendNil(ExprToks(b));
    assert GroupTail([b], "AND") == [Sql.Word("AND")] + (ExprToks(b) + []);
  }

  lemma ScopesOk()
    ensures ExprOk(Equals("u.tenant_id", 1)) && ExprOk(Equals("ug.group_id", 2)) && ExprOk(NOT_ARCHIVED)
  {
  }

  lemma UserScopeLex(includeArchived: bool, built: string)
    ensures AllOk(UserListScope(includeArchived))
    ensures Sql.Lex(UserListText(includeArchived, built))
            == GroupToks(UserListScope(includeArchived), "AND") + Sql.Lex(Appended(built))
  {
    hide Sql.Lex, ExprToks, ExprOk, AllOk, GroupToks, Appended;
    ScopesOk();
    PairToks(Equals("u.tenant_id", 1), NOT_ARCHIVED);
    TenantLex();
    var more := Appended(built);
    AppendedBoundary(built);
    if includeArchived {
      assert "" + more == more;
      LexAppend("u.tenant_id = $1", more);
    } else {
      LexAppend("u.tenant_id = $1", " AND u.status != 'archived'" + more);
      NotArchivedLex(more);
      Assoc([Sql.Word("AND")], ExprToks(NOT_ARCHIVED), Sql.Lex(more));
      Assoc(ExprToks(Equals("u.tenant_id", 1)), [Sql.Word("AND")] + ExprToks(NOT_ARCHIVED), Sql.Lex(more));
    }
  }

  lemma GroupScopeLex(built: string)
    ensures AllOk(GROUP_LIST_SCOPE)
    ensures Sql.Lex(GroupListText(built)) == GroupToks(GROUP_LIST_SCOPE, "AND") + Sql.Lex(Appended(built))
  {
    hide Sql.Lex, ExprToks, ExprOk, AllOk, GroupToks, Appended;
    ScopesOk();
    PairToks(Equals("u.tenant_id", 1), Equals("ug.group_id", 2));
    TenantLex();
    GroupIdLex();
    AppendedBoundary(built);
    assert "u.tenant_id = $1 AND ug.group_id = $2" == "u.tenant_id = $1" + (" " + "AND" + " ") + "ug.group_id = $2";
    LexAnd("u.tenant_id = $1", "AND", "ug.group_id = $2");
    LexAppend("u.tenant_id = $1 AND ug.group_id = $2", Appended(built));
  }

  // ---------------------------------------------------------------- reading the glued texts

  lemma {:induction false} GroupSnoc(es: seq<Sql.Expr>, e: Sql.Expr)
    requires es != [] && AllOk(es) && ExprOk(e)
    ensures AllOk(es + [e])
    ensures GroupToks(es + [e], "AND") == GroupToks(es, "AND") + ([Sql.Word("AND")] + ExprToks(e))
    ensures NoneEmpty(es) ==> (NoneEmpty(es + [e]) <==> NoEmptyGroup(e))
    ensures NormAll(es + [e]) == NormAll(es) + [Norm(e)]
  {
    hide ExprToks, ExprOk, NoEmptyGroup, Norm;
    assert (es + [e])[0] == es[0] && (es + [e])[1..] == es[1..] + [e];
    TailSnoc(es[1..], e);
    Assoc(ExprToks(es[0]), GroupTail(es[1..], "AND"), [Sql.Word("AND")] + ExprToks(e));
    Assoc([Norm(es[0])], NormAll(es[1..]), [Norm(e)]);
  }

  lemma {:induction false} TailSnoc(es: seq<Sql.Expr>, e: Sql.Expr)
    requires AllOk(es) && ExprOk(e)
    ensures AllOk(es + [e])
    ensures GroupTail(es + [e], "AND") == GroupTail(es, "AND") + ([Sql.Word("AND")] + ExprToks(e))
    ensures NoneEmpty(es + [e]) <==> NoneEmpty(es) && NoEmptyGroup(e)
    ensures NormAll(es + [e]) == NormAll(es) + [Norm(e)]
    decreases es
  {
    hide ExprToks, ExprOk, NoEmptyGroup, Norm;
    if es == [] {
      assert es + [e] == [e] && [e][1..] == [];
      AppendNil(ExprToks(e));
    } else {
      assert (es + [e])[0] == es[0] && (es + [e])[1..] == es[1..] + [e];
      TailSnoc(es[1..], e);
      Assoc(ExprToks(es[0]), GroupTail(es[1..], "AND"), [Sql.Word("AND")] + ExprToks(e));
      Assoc([Sql.Word("AND")], ExprToks(es[0]) + GroupTail(es[1..], "AND"), [Sql.Word("AND")] + ExprToks(e));
      Assoc([Norm(es[0])], NormAll(es[1..]), [Norm(e)]);
    }
  }

  /** A conjunction without outer parentheses is read as its members, or not at all if one of
      them contains an empty group. */
  lemma ReadConjunction(text: string, es: seq<Sql.Expr>)
    requires es != [] && AllOk(es) && Sql.Lex(text) == GroupToks(es, "AND")
    ensures Sql.ReadWhere(text) == if NoneEmpty(es) then Some(Collect(NormAll(es), true)) else None
  {
    hide Sql.Lex, GroupToks, AllOk, NoneEmpty, Sql.ReadAnd, Sql.ReadOrRest, NormAll;
    AppendNil(GroupToks(es, "AND"));
    if NoneEmpty(es) {
      AndReads(es, []);
      SingleOr([], Collect(NormAll(es), true));
    } else {
      GroupFails(es, "AND", []);
    }
  }

  /** The glued text reads as the repository's own predicates and the filter tree, and as nothing
      else; an empty group in the tree, which the parser never produces, makes it unreadable. */
  lemma GluedReads(text: string, scope: seq<Sql.Expr>, fields: seq<FieldSpec>, node: FilterNode, n: nat)
    requires FieldsOk(fields) && Accepted(fields, node) && Emit(fields, node, n).Ok?
    requires scope != [] && AllOk(scope) && NoneEmpty(scope)
    requires Sql.Lex(text) == GroupToks(scope, "AND") + Sql.Lex(Appended(Emit(fields, node, n).value.text))
    ensures Sql.ReadWhere(text)
            == if NoEmptyNode(node) then Some(Collect(NormAll(scope) + [Norm(Condition(fields, node, n))], true)) else None
  {
    hide Sql.Lex, GroupToks, AllOk, NoneEmpty, Condition, Norm, NormAll, Emit, ExprToks, ExprOk, FieldsOk, NoEmptyGroup,
         Accepted, NoEmptyNode, Appended, Collect, Sql.ReadWhere;
    var e := Condition(fields, node, n);
    var built := Emit(fields, node, n).value.text;
    NodeLex(fields, node, n);
    AppendedLex(built);
    GroupSnoc(scope, e);
    NoEmptySame(fields, node, n);
    ReadConjunction(text, scope + [e]);
  }

  // ---------------------------------------------------------------- selected rows

  lemma {:induction false} EvalAllSnoc(db: Sql.Db, binds: seq<string>, row: Sql.Row, es: seq<Sql.Expr>, e: Sql.Expr)
    ensures Sql.EvalAll(db, binds, row, es + [e]) == Sql.True
            <==> Sql.EvalAll(db, binds, row, es) == Sql.True && Sql.Eval(db, binds, row, e) == Sql.True
    decreases es
  {
    hide Sql.Eval;
    if es == [] {
      assert es + [e] == [e] && [e][1..] == [];
    } else {
      assert (es + [e])[0] == es[0] && (es + [e])[1..] == es[1..] + [e];
      EvalAllSnoc(db, binds, row, es[1..], e);
    }
  }

  /** Rows the scope and the tree both admit, for any list query. */
  lemma GluedMeans(db: Sql.Db, scope: seq<Sql.Expr>, fields: seq<FieldSpec>, node: FilterNode, n: nat,
                   fixed: seq<string>, row: Sql.Row)
    requires Accepted(fields, node) && NoEmptyNode(node) && n == |fixed| + 1
    ensures var e := Collect(NormAll(scope) + [Norm(Condition(fields, node, n))], true);
            Sql.Selected(db, fixed + Params(node), row, e)
            <==> Sql.EvalAll(db, fixed + Params(node), row, NormAll(scope)) == Sql.True && Holds(db, fields, node, row)
  {
    hide Condition, Norm, NormAll, Holds, Params, Sql.Eval, Sql.EvalAll;
    var binds := fixed + Params(node);
    var e := Norm(Condition(fields, node, n));
    NodeMeans(db, fields, node, n, binds, row);
    CollectMeans(db, binds, row, NormAll(scope) + [e], true);
    EvalAllSnoc(db, binds, row, NormAll(scope), e);
  }

  predicate UserScopeHolds(includeArchived: bool, tenant: string, row: Sql.Row) {
    && Sql.Column(row, "u.tenant_id") == Some(Sql.Text(tenant))
    && (includeArchived
        || (Sql.Column(row, "u.status").Some? && Sql.Column(row, "u.status").value != Sql.Text("archived")))
  }

  lemma PredsNotEmpty(a: Sql.Expr, b: Sql.Expr)
    requires a.Pred? && b.Pred?
    ensures NoneEmpty([a]) && NoneEmpty([a, b])
  {
    assert [a, b][1..] == [b] && [b][1..] == [] && [a][1..] == [];
    assert NoEmptyGroup(a) && NoEmptyGroup(b);
    NoneEmptyParts([b]);
    NoneEmptyParts([a]);
    NoneEmptyParts([a, b]);
  }

  lemma UserScopeMeans(db: Sql.Db, includeArchived: bool, tenant: string, more: seq<string>, row: Sql.Row)
    ensures var scope := UserListScope(includeArchived);
            && NoneEmpty(scope)
            && (Sql.EvalAll(db, [tenant] + more, row, NormAll(scope)) == Sql.True
                <==> UserScopeHolds(includeArchived, tenant, row))
  {
    var binds := [tenant] + more;
    var t := Equals("u.tenant_id", 1);
    assert ([t])[1..] == [] && ([t, NOT_ARCHIVED])[1..] == [NOT_ARCHIVED] && ([NOT_ARCHIVED])[1..] == [];
    assert NormAll([t]) == [t] && NormAll([NOT_ARCHIVED]) == [NOT_ARCHIVED];
    assert NormAll([t, NOT_ARCHIVED]) == [t, NOT_ARCHIVED];
    EvalAllSnoc(db, binds, row, [], t);
    EvalAllSnoc(db, binds, row, [t], NOT_ARCHIVED);
    assert [] + [t] == [t] && [t] + [NOT_ARCHIVED] == [t, NOT_ARCHIVED];
    PredsNotEmpty(t, NOT_ARCHIVED);
    assert binds[0] == tenant;
  }

  lemma GroupScopeMeans(db: Sql.Db, tenant: string, group: string, more: seq<string>, row: Sql.Row)
    ensures NoneEmpty(GROUP_LIST_SCOPE)
    ensures Sql.EvalAll(db, [tenant, group] + more, row, NormAll(GROUP_LIST_SCOPE)) == Sql.True
            <==> Sql.Column(row, "u.tenant_id") == Some(Sql.Text(tenant))
                 && Sql.Column(row, "ug.group_id") == Some(Sql.Text(group))
  {
    var binds := [tenant, group] + more;
    var t, g := Equals("u.tenant_id", 1), Equals("ug.group_id", 2);
    assert ([t, g])[1..] == [g] && ([g])[1..] == [];
    assert NormAll([g]) == [g];
    assert NormAll([t, g]) == [t, g];
    EvalAllSnoc(db, binds, row, [], t);
    EvalAllSnoc(db, binds, row, [t], g);
    assert [] + [t] == [t] && [t] + [g] == [t, g];
    PredsNotEmpty(t, g);
  }

  /** `UsersRepo::list` with a filter: over any table of one-word columns the
      statement is readable exactly when the tree has no empty
      group, and then selects exactly the tenant's rows on which the tree holds. */
  lemma {:induction false} UserListMeans(db: Sql.Db, fields: seq<FieldSpec>, includeArchived: bool, node: FilterNode, sort: seq<SortSpec>,
                      tenant: string, row: Sql.Row)
    requires FieldsOk(fields) && BuildSpec(Some(node), sort, fields, 2).Ok?
    ensures Accepted(fields, node)
    ensures var q := BuildSpec(Some(node), sort, fields, 2).value;
            var read := Sql.ReadWhere(UserListText(includeArchived, q.whereSql));
            && (read.Some? <==> NoEmptyNode(node))
            && (read.Some? ==>
                  (Sql.Selected(db, [tenant] + q.params, row, read.value)
                   <==> UserScopeHolds(includeArchived, tenant, row) && Holds(db, fields, node, row)))
  {
    hide Emit, Accepted, Holds, NormAll, Norm, Condition, NoneEmpty, UserListText, UserListScope, AllOk, GroupToks,
         Sql.Lex, Sql.ReadWhere, Sql.Selected, UserScopeHolds, FieldsOk, SortParts, Params, Collect, Appended,
         Sql.EvalAll, NoEmptyNode, SortAccepted, OrderText;
    BuildAccepts(Some(node), sort, fields, 2);
    EmitAccepts(fields, node, 2);
    var q := BuildSpec(Some(node), sort, fields, 2).value;
    UserScopeLex(includeArchived, q.whereSql);
    UserScopeMeans(db, includeArchived, tenant, q.params, row);
    NonEmptyScope(includeArchived);
    GluedReads(UserListText(includeArchived, q.whereSql), UserListScope(includeArchived), fields, node, 2);
    if NoEmptyNode(node) {
      GluedMeans(db, UserListScope(includeArchived), fields, node, 2, [tenant], row);
    }
  }

  lemma NonEmptyScope(includeArchived: bool)
    ensures UserListScope(includeArchived) != []
  {
  }

  /** From the query string to the rows: every filter text the parser and the builder accept. */
  lemma {:induction false} UserListEndToEnd(db: Sql.Db, includeArchived: bool, q: string, sort: seq<SortSpec>, tenant: string, row: Sql.Row)
    requires Parse(q).Ok? && BuildSpec(Some(Parse(q).value), sort, USER_FILTER_FIELDS, 2).Ok?
    ensures Accepted(USER_FILTER_FIELDS, Parse(q).value)
    ensures var built := BuildSpec(Some(Parse(q).value), sort, USER_FILTER_FIELDS, 2).value;
            var read := Sql.ReadWhere(UserListText(includeArchived, built.whereSql));
            && read.Some?
            && (Sql.Selected(db, [tenant] + built.params, row, read.value)
                <==> UserScopeHolds(includeArchived, tenant, row) && Holds(db, USER_FILTER_FIELDS, Parse(q).value, row))
  {
    hide *;
    var node := Parse(q).value;
    WellFormedNoEmpty(node);
    UserFieldsOk();
    UserListMeans(db, USER_FILTER_FIELDS, includeArchived, node, sort, tenant, row);
  }

  /** `UsersRepo::list` without a filter. */
  lemma {:induction false} UnfilteredListMeans(db: Sql.Db, includeArchived: bool, tenant: string, row: Sql.Row)
    ensures var read := Sql.ReadWhere(UserListText(includeArchived, ""));
            read.Some? && (Sql.Selected(db, [tenant], row, read.value) <==> UserScopeHolds(includeArchived, tenant, row))
  {
    hide NormAll, NoneEmpty, UserListText, UserListScope, AllOk, GroupToks, Sql.Lex, Sql.ReadWhere, UserScopeHolds, Collect,
         Sql.EvalAll, Sql.Eval;
    var scope := UserListScope(includeArchived);
    UserScopeLex(includeArchived, "");
    EmptyLex();
    AppendNil(GroupToks(scope, "AND"));
    NonEmptyScope(includeArchived);
    UserScopeMeans(db, includeArchived, tenant, [], row);
    AppendNil([tenant]);
    ReadConjunction(UserListText(includeArchived, ""), scope);
    CollectMeans(db, [tenant], row, NormAll(scope), true);
  }

  /** `UsersRepo::list_by_group` with a filter. */
  lemma {:induction false} GroupListMeans(db: Sql.Db, fields: seq<FieldSpec>, node: FilterNode, sort: seq<SortSpec>,
                       tenant: string, group: string, row: Sql.Row)
    requires FieldsOk(fields) && BuildSpec(Some(node), sort, fields, 3).Ok?
    ensures Accepted(fields, node)
    ensures var q := BuildSpec(Some(node), sort, fields, 3).value;
            var read := Sql.ReadWhere(GroupListText(q.whereSql));
            && (read.Some? <==> NoEmptyNode(node))
            && (read.Some? ==>
                  (Sql.Selected(db, [tenant, group] + q.params, row, read.value)
                   <==> && Sql.Column(row, "u.tenant_id") == Some(Sql.Text(tenant))
                        && Sql.Column(row, "ug.group_id") == Some(Sql.Text(group))
                        && Holds(db, fields, node, row)))
  {
    hide Emit, Accepted, Holds, NormAll, Norm, Condition, NoneEmpty, GroupListText, AllOk, GroupToks,
         Sql.Lex, Sql.ReadWhere, Sql.Selected, FieldsOk, SortParts, Params, Collect, Appended,
         Sql.EvalAll, NoEmptyNode, SortAccepted, OrderText, Sql.Column;
    BuildAccepts(Some(node), sort, fields, 3);
    EmitAccepts(fields, node, 3);
    var q := BuildSpec(Some(node), sort, fields, 3).value;
    GroupScopeLex(q.whereSql);
    GroupScopeMeans(db, tenant, group, q.params, row);
    GluedReads(GroupListText(q.whereSql), GROUP_LIST_SCOPE, fields, node, 3);
    if NoEmptyNode(node) {
      GluedMeans(db, GROUP_LIST_SCOPE, fields, node, 3, [tenant, group], row);
    }
  }

  // ---------------------------------------------------------------- the fields of a user list

  predicate Secret(name: string) { name == "passwordHash" || name == "mfaSecret" }

  predicate Mentions(node: FilterNode, name: string)
    decreases node
  {
    match node
    case Leaf(field, _, _) => field == name
    case And(cs) => exists i :: 0 <= i < |cs| && Mentions(cs[i], name)
    case Or(cs) => exists i :: 0 <= i < |cs| && Mentions(cs[i], name)
  }

  lemma SecretsAreSensitive(name: string)
    requires Secret(name)
    ensures Find(USER_FILTER_FIELDS, name).Some? ==> Find(USER_FILTER_FIELDS, name).value.sensitive
  {
    hide Find;
    assert forall f :: f in USER_FILTER_FIELDS && !f.sensitive ==> !Secret(f.apiName);
  }

  lemma {:induction false} AcceptedMentions(node: FilterNode, name: string)
    requires Secret(name) && Accepted(USER_FILTER_FIELDS, node)
    ensures !Mentions(node, name)
    decreases node, 0
  {
    hide USER_FILTER_FIELDS, Secret;
    match node
    case Leaf(_, _, _) => SecretsAreSensitive(name);
    case And(cs) => AllAcceptedMention(cs, name);
    case Or(cs) => AllAcceptedMention(cs, name);
  }

  lemma {:induction false} AllAcceptedMention(nodes: seq<FilterNode>, name: string)
    requires Secret(name) && AllAccepted(USER_FILTER_FIELDS, nodes)
    ensures forall i :: 0 <= i < |nodes| ==> !Mentions(nodes[i], name)
    decreases nodes, 1
  {
    hide USER_FILTER_FIELDS, Secret;
    if nodes != [] {
      AcceptedMentions(nodes[0], name);
      AllAcceptedMention(nodes[1..], name);
      assert forall i :: 1 <= i < |nodes| ==> nodes[i] == nodes[1..][i - 1];
    }
  }

  /** A user list never filters or sorts by the password hash or the MFA secret, wherever in the tree
      they are mentioned. */
  lemma SecretsStayOut(filter: Option<FilterNode>, sort: seq<SortSpec>, start: nat, name: string)
    requires Secret(name) && BuildSpec(filter, sort, USER_FILTER_FIELDS, start).Ok?
    ensures filter.Some? ==> !Mentions(filter.value, name)
    ensures forall i :: 0 <= i < |sort| ==> sort[i].field != name
  {
    hide USER_FILTER_FIELDS, Secret;
    BuildAccepts(filter, sort, USER_FILTER_FIELDS, start);
    SecretsAreSensitive(name);
    if filter.Some? {
      AcceptedMentions(filter.value, name);
    }
  }
}
