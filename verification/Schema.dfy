/** The actions the Cedar schema declares, `src/policy/schema.rs`, as a relation between actions
    and resource types. */
module Schema {
  import opened Prelude
  import opened Resource
  import opened Sorting

  const CRUD_VERBS: seq<string> := ["get", "post", "patch", "put", "delete", "archive", "unarchive"]
  const EXTENSIBLE_VERBS: seq<string> := ["getExtensibleFields", "putExtensibleFields", "deleteExtensibleFields"]
  const QUERY_ACTIONS: seq<string> := ["run"]
  const VIEW_ACTIONS: seq<string> := ["get", "refresh"]

  predicate IsBuiltin(action: string) { action in QUERY_ACTIONS || action in VIEW_ACTIONS }

  /** Upper-casing restricted to ASCII. */
  function UpperChar(c: char): char { if 'a' <= c <= 'z' then (c as int - 32) as char else c }

  function Capitalize(part: string): string { if part == "" then "" else [UpperChar(part[0])] + part[1..] }

  function Capitalized(parts: seq<string>): string {
    if parts == [] then "" else Capitalize(parts[0]) + Capitalized(parts[1..])
  }

  function PascalCase(s: string): string { Capitalized(Split(s, '_')) }

  function WithVerbs(verbs: seq<string>, table: string): seq<string> {
    seq(|verbs|, i requires 0 <= i < |verbs| => verbs[i] + PascalCase(table))
  }

  function CrudActions(table: string): seq<string> { WithVerbs(CRUD_VERBS, table) }

  function ExtensibleActions(table: string): seq<string> { WithVerbs(EXTENSIBLE_VERBS, table) }

  /** One `action "name" appliesTo { … }` line. */
  datatype Decl = Decl(action: string, types: set<EntityType>)

  const ALL_TYPES: set<EntityType> := {Service, Package, Table, Column, Query, View}

  /** A registered (package, table) or (package, action) pair. */
  datatype Entry = Entry(package: string, name: string)

  /** Why a line is in the schema. */
  predicate Generated(tables: seq<Entry>, custom: seq<Entry>, d: Decl) {
    || (d.types == ALL_TYPES && exists i :: 0 <= i < |tables| && d.action in CrudActions(tables[i].name))
    || (d.types == {Query} && d.action in QUERY_ACTIONS)
    || (d.types == {View} && d.action in VIEW_ACTIONS)
    || (d.types == ALL_TYPES && !IsBuiltin(d.action) && exists i :: 0 <= i < |custom| && custom[i].name == d.action)
  }

  /** The lines `build_schema_str` pushes, before they are sorted and deduplicated. */
  method PushLines(tables: seq<Entry>, custom: seq<Entry>) returns (lines: seq<Decl>)
    ensures forall d :: d in lines <==> Generated(tables, custom, d)
  {
    hide CrudActions, IsBuiltin;
    lines := [];
    for i := 0 to |tables|
      invariant forall d :: d in lines <==>
                  d.types == ALL_TYPES && exists k :: 0 <= k < i && d.action in CrudActions(tables[k].name)
    {
      var names := CrudActions(tables[i].name);
      ghost var before := lines;
      for j := 0 to |names|
        invariant forall d :: d in lines <==> d in before || (d.types == ALL_TYPES && d.action in names[..j])
      {
        lines := lines + [Decl(names[j], ALL_TYPES)];
        assert names[..j + 1] == names[..j] + [names[j]];
      }
      assert names[..|names|] == names;
    }
    lines := lines + [Decl("run", {Query})];
    lines := lines + [Decl("get", {View}), Decl("refresh", {View})];
    ghost var fixed := lines;
    for i := 0 to |custom|
      invariant forall d :: d in lines <==>
                  d in fixed || (d.types == ALL_TYPES && !IsBuiltin(d.action) && exists k :: 0 <= k < i && custom[k].name == d.action)
    {
      if !IsBuiltin(custom[i].name) {
        lines := lines + [Decl(custom[i].name, ALL_TYPES)];
      }
    }
  }

  // ---------------------------------------------------------------- the lines as text

  const LINE_FRONT := "  action \""
  const QUERY_END := "\" appliesTo { principal: [User], resource: [Query] };"
  const VIEW_END := "\" appliesTo { principal: [User], resource: [View] };"
  const ALL_END := "\" appliesTo { principal: [User], resource: [Service, Package, Table, Column, Query, View] };"

  function LineEnd(types: set<EntityType>): string {
    if types == {Query} then QUERY_END else if types == {View} then VIEW_END else ALL_END
  }

  function LineText(d: Decl): string { LINE_FRONT + d.action + LineEnd(d.types) }

  predicate KnownTypes(types: set<EntityType>) { types == {Query} || types == {View} || types == ALL_TYPES }

  /** The ends of the three kinds of line differ in their ninth character from the right. */
  lemma EndsDiffer(a: set<EntityType>, b: set<EntityType>)
    requires KnownTypes(a) && KnownTypes(b)
    ensures |LineEnd(a)| >= 9 && |LineEnd(b)| >= 9
    ensures LineEnd(a)[|LineEnd(a)| - 9] == LineEnd(b)[|LineEnd(b)| - 9] ==> a == b
  {
    assert QUERY_END[|QUERY_END| - 9] == 'Q' && VIEW_END[|VIEW_END| - 9] == '[' && ALL_END[|ALL_END| - 9] == ' ';
    assert Service in ALL_TYPES;
  }

  /** A line determines its declaration. */
  lemma SameLine(d: Decl, e: Decl)
    requires KnownTypes(d.types) && KnownTypes(e.types) && LineText(d) == LineText(e)
    ensures d == e
  {
    hide LineEnd;
    var t := LineText(d);
    EndsDiffer(d.types, e.types);
    assert t[|t| - 9] == LineEnd(d.types)[|LineEnd(d.types)| - 9] && t[|t| - 9] == LineEnd(e.types)[|LineEnd(e.types)| - 9];
    assert d.action == t[|LINE_FRONT|..|t| - |LineEnd(d.types)|] && e.action == t[|LINE_FRONT|..|t| - |LineEnd(e.types)|];
  }

  /** Lines that say what the registry generates, in strict order of their texts. */
  ghost predicate SchemaOf(tables: seq<Entry>, custom: seq<Entry>, lines: seq<Decl>) {
    && (forall d :: d in lines <==> Generated(tables, custom, d))
    && (forall i, j :: 0 <= i < j < |lines| ==> Less(LineText(lines[i]), LineText(lines[j])))
  }

  function LineRow(d: Decl): Row<Decl> { Row(LineText(d), d) }

  function LineRows(ds: seq<Decl>): seq<Row<Decl>> { seq(|ds|, i requires 0 <= i < |ds| => LineRow(ds[i])) }

  function Values(rows: seq<Row<Decl>>): seq<Decl> { seq(|rows|, i requires 0 <= i < |rows| => rows[i].value) }

  /** Sorting by text and merging equal neighbours keeps every declaration once. */
  lemma LinesKept(ds: seq<Decl>, out: seq<Row<Decl>>)
    requires Summary(LineRows(ds), out) && forall d :: d in ds ==> KnownTypes(d.types)
    ensures forall d :: d in Values(out) <==> d in ds
    ensures forall i :: 0 <= i < |out| ==> out[i].name == LineText(out[i].value)
  {
    hide LineText, KnownTypes, Less, Named;
    var rows := LineRows(ds);
    forall i | 0 <= i < |out| ensures out[i].value in ds && out[i] == LineRow(out[i].value) {
      NamedFrom(rows, out[i].name);
      assert out[i] in rows;
      var k :| 0 <= k < |rows| && rows[k] == out[i];
      assert rows[k] == LineRow(ds[k]);
    }
    forall d | d in ds ensures d in Values(out) {
      var k :| 0 <= k < |ds| && ds[k] == d;
      assert rows[k] == LineRow(d);
      assert Named(rows, LineText(d)) != [] by { NamedMember(rows, rows[k]); }
      var i :| 0 <= i < |out| && out[i].name == LineText(d);
      SameLine(out[i].value, d);
      assert Values(out)[i] == d;
    }
    forall d | d in Values(out) ensures d in ds {
      var i :| 0 <= i < |Values(out)| && Values(out)[i] == d;
      assert out[i].value == d;
    }
  }

  /** `build_schema_str`: push, sort, deduplicate. */
  method SchemaLines(tables: seq<Entry>, custom: seq<Entry>) returns (lines: seq<Decl>)
    ensures SchemaOf(tables, custom, lines)
  {
    hide LineText, Less, Named, Summary, IsBuiltin, CrudActions, Dedup;
    var pushed := PushLines(tables, custom);
    var rows := LineRows(pushed);
    var sorted := SortByName(rows);
    var out := DedupByName(sorted);
    DedupSummary(sorted);
    SummaryOfSort(rows, sorted, out);
    LinesKept(pushed, out);
    SummarySorted(rows, out);
    lines := Values(out);
  }

  /** Cedar accepts a schema only if no action is declared twice. */
  predicate ParseOk(lines: seq<Decl>) { forall i, j :: 0 <= i < j < |lines| ==> lines[i].action != lines[j].action }

  /** An action is declared for a resource type. */
  ghost predicate Declared(tables: seq<Entry>, custom: seq<Entry>, action: string, ty: EntityType) {
    exists d :: Generated(tables, custom, d) && d.action == action && ty in d.types
  }

  /** The same, read off the registry. */
  lemma DeclaredMeans(tables: seq<Entry>, custom: seq<Entry>, action: string, ty: EntityType)
    ensures Declared(tables, custom, action, ty)
            <==> || (exists i :: 0 <= i < |tables| && action in CrudActions(tables[i].name))
                 || (ty == Query && action == "run")
                 || (ty == View && (action == "get" || action == "refresh"))
                 || (!IsBuiltin(action) && exists i :: 0 <= i < |custom| && custom[i].name == action)
  {
    hide CrudActions;
    assert ty in ALL_TYPES;
    if exists i :: 0 <= i < |tables| && action in CrudActions(tables[i].name) {
      assert Generated(tables, custom, Decl(action, ALL_TYPES));
    }
    if !IsBuiltin(action) && exists i :: 0 <= i < |custom| && custom[i].name == action {
      assert Generated(tables, custom, Decl(action, ALL_TYPES));
    }
    if ty == Query && action == "run" {
      assert Generated(tables, custom, Decl(action, {Query}));
    }
    if ty == View && (action == "get" || action == "refresh") {
      assert Generated(tables, custom, Decl(action, {View}));
    }
  }

  // ---------------------------------------------------------------- which table names break the schema

  predicate OnlyUnderscores(s: string) { forall i :: 0 <= i < |s| ==> s[i] == '_' }

  lemma {:induction false} PascalEmpty(s: string)
    ensures PascalCase(s) == "" <==> OnlyUnderscores(s)
  {
    if s == "" {
      assert Split(s, '_') == [""] && [""][1..] == [];
    } else {
      PascalEmpty(s[1..]);
      var r := Split(s[1..], '_');
      assert s == [s[0]] + s[1..];
      if s[0] == '_' {
        ConsParts("", r);
        assert Capitalized([""] + r) == "" + Capitalized(r);
        assert OnlyUnderscores(s) <==> OnlyUnderscores(s[1..]);
      } else {
        ConsParts([s[0]] + r[0], r[1..]);
        assert Capitalized([[s[0]] + r[0]] + r[1..]) != "";
      }
    }
  }

  lemma CrudIsNotBuiltin(table: string, action: string)
    requires action in CrudActions(table) && PascalCase(table) != ""
    ensures !IsBuiltin(action)
  {
    hide PascalCase;
    var i :| 0 <= i < |CRUD_VERBS| && action == CRUD_VERBS[i] + PascalCase(table);
    assert action[0] == CRUD_VERBS[i][0] && |action| > |CRUD_VERBS[i]|;
  }

  predicate NamesOk(tables: seq<Entry>) { forall i :: 0 <= i < |tables| ==> !OnlyUnderscores(tables[i].name) }

  /** The schema parses exactly when no registered table is named by underscores alone: such a
      table's actions are bare verbs, and `get` collides with the built-in view action. */
  lemma ParsesIff(tables: seq<Entry>, custom: seq<Entry>, lines: seq<Decl>)
    requires SchemaOf(tables, custom, lines)
    ensures ParseOk(lines) <==> NamesOk(tables)
  {
    hide OnlyUnderscores, Generated, LineText, Less;
    if i :| 0 <= i < |tables| && OnlyUnderscores(tables[i].name) {
      BareGet(tables, custom, i);
      var all, view := Decl("get", ALL_TYPES), Decl("get", {View});
      assert all in lines && view in lines;
      var j :| 0 <= j < |lines| && lines[j] == all;
      var k :| 0 <= k < |lines| && lines[k] == view;
      assert j != k by { assert Service in ALL_TYPES; }
    } else {
      forall i, j | 0 <= i < j < |lines| ensures lines[i].action != lines[j].action {
        assert lines[i] in lines && lines[j] in lines;
        NoClash(tables, custom, lines[i]);
        NoClash(tables, custom, lines[j]);
        LinesDiffer(lines, i, j);
      }
    }
  }

  lemma LinesDiffer(lines: seq<Decl>, i: nat, j: nat)
    requires i < j < |lines| && Less(LineText(lines[i]), LineText(lines[j]))
    ensures lines[i] != lines[j]
  {
    hide LineText;
    LessTotal(LineText(lines[i]), LineText(lines[j]));
  }

  lemma BareGet(tables: seq<Entry>, custom: seq<Entry>, i: nat)
    requires i < |tables| && OnlyUnderscores(tables[i].name)
    ensures Generated(tables, custom, Decl("get", ALL_TYPES)) && Generated(tables, custom, Decl("get", {View}))
  {
    hide PascalCase;
    PascalEmpty(tables[i].name);
    assert CrudActions(tables[i].name)[0] == "get" + "";
    assert "get" + "" == "get";
  }

  lemma NoClash(tables: seq<Entry>, custom: seq<Entry>, d: Decl)
    requires forall i :: 0 <= i < |tables| ==> !OnlyUnderscores(tables[i].name)
    requires Generated(tables, custom, d)
    ensures d.types == if d.action in QUERY_ACTIONS then {Query} else if d.action in VIEW_ACTIONS then {View} else ALL_TYPES
  {
    hide OnlyUnderscores, PascalCase, CrudActions;
    if i :| 0 <= i < |tables| && d.action in CrudActions(tables[i].name) {
      PascalEmpty(tables[i].name);
      CrudIsNotBuiltin(tables[i].name, d.action);
    }
  }

  // ---------------------------------------------------------------- the schema in use

  /** The stored tables and actions of all packages. */
  datatype Registry = Registry(tables: seq<Entry>, custom: seq<Entry>)

  /** The schema the service keeps between rebuilds (`cedar_schema`). */
  class SchemaCell {
    var lines: seq<Decl>

    /** Starts with the schema of an empty registry. */
    constructor ()
      ensures SchemaOf([], [], lines)
    {
      var empty := SchemaLines([], []);
      lines := empty;
    }

    /** `rebuild_schema`: a schema that does not parse is an error and leaves the old one in use. */
    method Rebuild(r: Registry) returns (ok: bool)
      modifies this
      ensures ok <==> NamesOk(r.tables)
      ensures ok ==> SchemaOf(r.tables, r.custom, lines)
      ensures !ok ==> lines == old(lines)
    {
      hide SchemaOf, NamesOk;
      var fresh' := SchemaLines(r.tables, r.custom);
      ParsesIff(r.tables, r.custom, fresh');
      ok := ParseOk(fresh');
      if ok {
        lines := fresh';
      }
    }
  }

  /** After a start with `first` and a number of syncs, the registry whose schema is in use: the
      last one without a table named by underscores alone. */
  function InUse(first: Registry, syncs: seq<Registry>): Registry {
    if syncs == [] then first
    else if NamesOk(syncs[|syncs| - 1].tables) then syncs[|syncs| - 1]
    else InUse(first, syncs[..|syncs| - 1])
  }

  lemma {:induction false} InUseOk(first: Registry, syncs: seq<Registry>)
    requires NamesOk(first.tables)
    ensures NamesOk(InUse(first, syncs).tables)
  {
    if syncs != [] {
      InUseOk(first, syncs[..|syncs| - 1]);
    }
  }

  lemma GeneratedIsDeclared(r: Registry, d: Decl, ty: EntityType)
    requires Generated(r.tables, r.custom, d) && ty in d.types
    ensures Declared(r.tables, r.custom, d.action, ty)
  {
  }

  lemma GetIsForViews(r: Registry)
    requires NamesOk(r.tables)
    ensures !Declared(r.tables, r.custom, "get", Service)
  {
    hide OnlyUnderscores, Generated;
    forall d | Generated(r.tables, r.custom, d) && d.action == "get" ensures Service !in d.types {
      NoClash(r.tables, r.custom, d);
    }
  }

  ghost predicate SameDeclarations(a: Registry, b: Registry) {
    forall action, ty :: Declared(a.tables, a.custom, action, ty) <==> Declared(b.tables, b.custom, action, ty)
  }

  /** The schema in use declares what the stored registry does if and only if that registry has no
      table named by underscores alone. */
  lemma InUseIsCurrentIff(first: Registry, syncs: seq<Registry>)
    requires NamesOk(first.tables)
    ensures var current := if syncs == [] then first else syncs[|syncs| - 1]; var used := InUse(first, syncs);
            SameDeclarations(used, current) <==> NamesOk(current.tables)
  {
    hide OnlyUnderscores, Declared;
    InUseOk(first, syncs);
    var current := if syncs == [] then first else syncs[|syncs| - 1];
    var used := InUse(first, syncs);
    if i :| 0 <= i < |current.tables| && OnlyUnderscores(current.tables[i].name) {
      BareGet(current.tables, current.custom, i);
      GeneratedIsDeclared(current, Decl("get", ALL_TYPES), Service);
      GetIsForViews(used);
      assert !SameDeclarations(used, current);
    } else {
      assert NamesOk(current.tables) && used == current;
    }
  }
}
