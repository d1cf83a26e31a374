/** The action listing of `src/services/packages.rs`: which actions a resource has, and the path
    each is checked against. */
module Packages {
  import opened Prelude
  import opened Resource
  import opened Schema
  import opened Sorting

  /** An action and the resource path it is paired with. */
  type ActionRow = Row<string>

  datatype Scope = Scope(package: Option<string>, table: Option<string>, service: string)

  // ---------------------------------------------------------------- the scope of a path

  function Tagged(segment: string, tag: string): Option<string> {
    if tag <= segment then Some(segment[|tag|..]) else None
  }

  /** The last tagged segment decides; a package tag is looked for first. */
  function LastPackage(segments: seq<string>): Option<string> {
    if segments == [] then None
    else
      match Tagged(segments[|segments| - 1], "package:")
      case Some(p) => Some(p)
      case None => LastPackage(segments[..|segments| - 1])
  }

  function LastTable(segments: seq<string>): Option<string> {
    if segments == [] then None
    else
      var last := segments[|segments| - 1];
      if Tagged(last, "package:").None? && Tagged(last, "table:").Some? then Tagged(last, "table:")
      else LastTable(segments[..|segments| - 1])
  }

  function FirstService(segments: seq<string>): string {
    if segments == [] then ""
    else if "service:" <= segments[0] then segments[0]
    else FirstService(segments[1..])
  }

  function ScopeOf(resource: string): Scope {
    var segments := Split(resource, '/');
    Scope(LastPackage(segments), LastTable(segments), FirstService(segments))
  }

  /** `parse_resource_scope`. */
  method ParseResourceScope(resource: string) returns (package: Option<string>, table: Option<string>)
    ensures package == ScopeOf(resource).package && table == ScopeOf(resource).table
  {
    var segments := Split(resource, '/');
    package, table := None, None;
    for i := 0 to |segments|
      invariant package == LastPackage(segments[..i]) && table == LastTable(segments[..i])
    {
      assert segments[..i + 1][..i] == segments[..i] && segments[..i + 1][i] == segments[i];
      var p := Tagged(segments[i], "package:");
      if p.Some? {
        package := p;
      } else {
        var t := Tagged(segments[i], "table:");
        if t.Some? {
          table := t;
        }
      }
    }
    assert segments[..|segments|] == segments;
  }

  // ---------------------------------------------------------------- the rows collected

  predicate TableIncluded(sc: Scope, e: Entry) {
    match sc.package
    case None => true
    case Some(p) => e.package == p && (sc.table.Some? ==> e.name == sc.table.value)
  }

  predicate PackageIncluded(sc: Scope, e: Entry) { sc.package.Some? ==> e.package == sc.package.value }

  function Under(service: string, rest: string): string { if service == "" then rest else service + "/" + rest }

  function TablePath(sc: Scope, e: Entry): string {
    Under(sc.service, "package:" + e.package + "/table:" + e.name)
  }

  function PackagePath(sc: Scope, e: Entry): string { Under(sc.service, "package:" + e.package) }

  /** A table is extensible when one of its extensible-field actions is registered. */
  predicate Extensible(custom: seq<Entry>, e: Entry) {
    exists i :: 0 <= i < |ExtensibleActions(e.name)| && Entry(e.package, ExtensibleActions(e.name)[i]) in custom
  }

  /** The actions a table contributes. */
  function TableActions(custom: seq<Entry>, e: Entry): seq<string> {
    CrudActions(e.name) + (if Extensible(custom, e) then ExtensibleActions(e.name) else [])
  }

  function Rows(names: seq<string>, path: string): seq<ActionRow> {
    seq(|names|, i requires 0 <= i < |names| => Row(names[i], path))
  }

  function TableRows(sc: Scope, custom: seq<Entry>, e: Entry): seq<ActionRow> {
    if TableIncluded(sc, e) then Rows(TableActions(custom, e), TablePath(sc, e)) else []
  }

  function PackageRows(sc: Scope, e: Entry): seq<ActionRow> {
    if PackageIncluded(sc, e) then [Row(e.name, PackagePath(sc, e))] else []
  }

  /** Everything pushed, in order: tables in registry order, then registered actions. */
  function AllRows(sc: Scope, tables: seq<Entry>, custom: seq<Entry>): seq<ActionRow> {
    FlatMap(tables, e => TableRows(sc, custom, e)) + FlatMap(custom, e => PackageRows(sc, e))
  }

  // ---------------------------------------------------------------- the listing

  predicate EndsIn(resource: string, tag: string) { tag <= Last(Split(resource, '/')) }

  /** `get_actions_for_resource`. */
  method ActionsForResource(resource: string, tables: seq<Entry>, custom: seq<Entry>) returns (out: seq<ActionRow>)
    ensures EndsIn(resource, "query:") ==> out == [Row("run", resource)]
    ensures !EndsIn(resource, "query:") && EndsIn(resource, "view:") ==> out == [Row("get", resource), Row("refresh", resource)]
    ensures !EndsIn(resource, "query:") && !EndsIn(resource, "view:") ==> Summary(AllRows(ScopeOf(resource), tables, custom), out)
  {
    hide Split, Summary, CrudActions, ExtensibleActions, Extensible, Tagged;
    if EndsIn(resource, "query:") { return Rows(QUERY_ACTIONS, resource); }
    if EndsIn(resource, "view:") { return Rows(VIEW_ACTIONS, resource); }
    var package, table := ParseResourceScope(resource);
    var sc := Scope(package, table, FirstService(Split(resource, '/')));
    var actions: seq<ActionRow> := [];
    for i := 0 to |tables|
      invariant actions == FlatMap(tables[..i], e => TableRows(sc, custom, e))
    {
      FlatMapNext(tables, e => TableRows(sc, custom, e), i);
      if TableIncluded(sc, tables[i]) {
        actions := actions + Rows(TableActions(custom, tables[i]), TablePath(sc, tables[i]));
      } else {
        AppendNil(actions);
      }
    }
    assert tables[..|tables|] == tables;
    ghost var fromTables := actions;
    AppendNil(fromTables);
    for i := 0 to |custom|
      invariant actions == fromTables + FlatMap(custom[..i], e => PackageRows(sc, e))
    {
      FlatMapNext(custom, e => PackageRows(sc, e), i);
      Assoc(fromTables, FlatMap(custom[..i], e => PackageRows(sc, e)), PackageRows(sc, custom[i]));
      if PackageIncluded(sc, custom[i]) {
        actions := actions + [Row(custom[i].name, PackagePath(sc, custom[i]))];
      } else {
        AppendNil(actions);
      }
    }
    assert custom[..|custom|] == custom;
    var sorted := SortByName(actions);
    out := DedupByName(sorted);
    DedupSummary(sorted);
    SummaryOfSort(actions, sorted, out);
  }

  // ---------------------------------------------------------------- what that says about actions

  /** An action some included table contributes. */
  predicate FromTable(sc: Scope, custom: seq<Entry>, e: Entry, name: string) {
    TableIncluded(sc, e) && name in TableActions(custom, e)
  }

  predicate InScope(sc: Scope, tables: seq<Entry>, custom: seq<Entry>, name: string) {
    || (exists i :: 0 <= i < |tables| && FromTable(sc, custom, tables[i], name))
    || (exists i :: 0 <= i < |custom| && Registered(sc, custom[i], name))
  }

  lemma {:induction false} NamedAppend(a: seq<ActionRow>, b: seq<ActionRow>, name: string)
    ensures Named(a + b, name) == Named(a, name) + Named(b, name)
    decreases |b|
  {
    if b == [] {
      AppendNil(a);
      AppendNil(Named(a, name));
    } else {
      var k := |b| - 1;
      assert (a + b)[..|a + b| - 1] == a + b[..k];
      NamedAppend(a, b[..k], name);
    }
  }

  lemma {:induction false} NamedEmpty(s: seq<ActionRow>, name: string)
    ensures Named(s, name) == [] <==> forall i :: 0 <= i < |s| ==> s[i].name != name
  {
    if s != [] {
      NamedEmpty(s[..|s| - 1], name);
      assert forall i :: 0 <= i < |s| - 1 ==> s[..|s| - 1][i] == s[i];
    }
  }

  lemma TableRowsNamed(sc: Scope, custom: seq<Entry>, e: Entry, name: string)
    ensures Named(TableRows(sc, custom, e), name) != [] <==> FromTable(sc, custom, e, name)
    ensures forall r :: r in TableRows(sc, custom, e) ==> r.value == TablePath(sc, e)
  {
    hide TableActions, TablePath;
    var rows := TableRows(sc, custom, e);
    NamedEmpty(rows, name);
    if FromTable(sc, custom, e, name) {
      var i :| 0 <= i < |TableActions(custom, e)| && TableActions(custom, e)[i] == name;
      assert rows[i].name == name;
    }
  }

  /** Rows of a name before any table contributes it: none. */
  lemma {:induction false} NoneBefore(sc: Scope, tables: seq<Entry>, custom: seq<Entry>, name: string)
    requires forall i :: 0 <= i < |tables| ==> !FromTable(sc, custom, tables[i], name)
    ensures Named(FlatMap(tables, e => TableRows(sc, custom, e)), name) == []
    decreases |tables|
  {
    hide TableRows, FromTable;
    if tables != [] {
      var k := |tables| - 1;
      NoneBefore(sc, tables[..k], custom, name);
      TableRowsNamed(sc, custom, tables[k], name);
      NamedAppend(FlatMap(tables[..k], e => TableRows(sc, custom, e)), TableRows(sc, custom, tables[k]), name);
    }
  }

  /** The first row of a table action is that of the first table contributing it. */
  lemma FirstTableRow(sc: Scope, tables: seq<Entry>, custom: seq<Entry>, name: string, i: nat)
    requires i < |tables| && FromTable(sc, custom, tables[i], name)
    requires forall k :: 0 <= k < i ==> !FromTable(sc, custom, tables[k], name)
    ensures var named := Named(AllRows(sc, tables, custom), name);
            named != [] && named[0] == Row(name, TablePath(sc, tables[i]))
  {
    hide TableRows, FromTable, PackageRows, TablePath;
    var f := e => TableRows(sc, custom, e);
    NoneBefore(sc, tables[..i], custom, name);
    TableRowsNamed(sc, custom, tables[i], name);
    NamedAppend(FlatMap(tables[..i], f), f(tables[i]), name);
    FlatMapPrefix(tables, f, i, f(tables[i]));
    var front := FlatMap(tables[..i], f) + f(tables[i]);
    var all := AllRows(sc, tables, custom);
    assert all == front + all[|front|..];
    NamedAppend(front, all[|front|..], name);
    var named := Named(f(tables[i]), name);
    assert Named(all, name)[0] == named[0];
    NamedMember(f(tables[i]), Row(name, named[0].value));
    assert named[0] in named;
    NamedMember(f(tables[i]), named[0]);
  }

  lemma RowsInScope(sc: Scope, tables: seq<Entry>, custom: seq<Entry>, name: string)
    ensures Named(AllRows(sc, tables, custom), name) != [] <==> InScope(sc, tables, custom, name)
  {
    hide TableRows, FromTable, PackagePath;
    var a := FlatMap(tables, e => TableRows(sc, custom, e));
    var b := FlatMap(custom, e => PackageRows(sc, e));
    NamedAppend(a, b, name);
    if i :| 0 <= i < |tables| && FromTable(sc, custom, tables[i], name) {
      var first := FirstContributor(sc, tables, custom, name, i);
      FirstTableRow(sc, tables, custom, name, first);
    } else {
      NoneBefore(sc, tables, custom, name);
      CustomRows(sc, custom, name);
      assert [] + Named(b, name) == Named(b, name);
    }
  }

  lemma FirstContributor(sc: Scope, tables: seq<Entry>, custom: seq<Entry>, name: string, i: nat) returns (k: nat)
    requires i < |tables| && FromTable(sc, custom, tables[i], name)
    ensures k <= i && FromTable(sc, custom, tables[k], name)
    ensures forall j :: 0 <= j < k ==> !FromTable(sc, custom, tables[j], name)
  {
    hide FromTable;
    k := 0;
    while !FromTable(sc, custom, tables[k], name)
      invariant k <= i && forall j :: 0 <= j < k ==> !FromTable(sc, custom, tables[j], name)
      decreases i - k
    {
      k := k + 1;
    }
  }

  lemma CustomRows(sc: Scope, custom: seq<Entry>, name: string)
    ensures Named(FlatMap(custom, e => PackageRows(sc, e)), name) != []
            <==> exists i :: 0 <= i < |custom| && Registered(sc, custom[i], name)
  {
    hide PackagePath, PackageIncluded;
    var f := e => PackageRows(sc, e);
    var rows := FlatMap(custom, f);
    NamedEmpty(rows, name);
    if i :| 0 <= i < |custom| && Registered(sc, custom[i], name) {
      var r := Row(name, PackagePath(sc, custom[i]));
      assert r in f(custom[i]);
      FlatMapMember(custom, f, r);
      var k :| 0 <= k < |rows| && rows[k] == r;
    }
    if k :| 0 <= k < |rows| && rows[k].name == name {
      FlatMapMember(custom, f, rows[k]);
      var i :| 0 <= i < |custom| && rows[k] in f(custom[i]);
    }
  }

  /** A registered action included by package scope. */
  predicate Registered(sc: Scope, e: Entry, name: string) { PackageIncluded(sc, e) && e.name == name }

  lemma PackageRowsNamed(sc: Scope, e: Entry, name: string)
    ensures Named(PackageRows(sc, e), name) == if Registered(sc, e, name) then [Row(name, PackagePath(sc, e))] else []
  {
    hide PackagePath;
    var rows := PackageRows(sc, e);
    assert rows != [] ==> rows[..0] == [];
  }

  lemma {:induction false} NoneRegistered(sc: Scope, custom: seq<Entry>, name: string)
    requires forall i :: 0 <= i < |custom| ==> !Registered(sc, custom[i], name)
    ensures Named(FlatMap(custom, e => PackageRows(sc, e)), name) == []
    decreases |custom|
  {
    hide PackageRows, Registered;
    if custom != [] {
      var k := |custom| - 1;
      NoneRegistered(sc, custom[..k], name);
      PackageRowsNamed(sc, custom[k], name);
      NamedAppend(FlatMap(custom[..k], e => PackageRows(sc, e)), PackageRows(sc, custom[k]), name);
    }
  }

  lemma FirstRegisteredRow(sc: Scope, custom: seq<Entry>, name: string, i: nat)
    requires i < |custom| && Registered(sc, custom[i], name) && forall k :: 0 <= k < i ==> !Registered(sc, custom[k], name)
    ensures var named := Named(FlatMap(custom, e => PackageRows(sc, e)), name);
            named != [] && named[0] == Row(name, PackagePath(sc, custom[i]))
  {
    hide PackageRows, PackagePath, Registered, Named;
    var f := e => PackageRows(sc, e);
    var b := FlatMap(custom, f);
    NoneRegistered(sc, custom[..i], name);
    PackageRowsNamed(sc, custom[i], name);
    NamedAppend(FlatMap(custom[..i], f), f(custom[i]), name);
    FlatMapPrefix(custom, f, i, f(custom[i]));
    var front := FlatMap(custom[..i], f) + f(custom[i]);
    assert b == front + b[|front|..];
    NamedAppend(front, b[|front|..], name);
  }

  /** The first row of an action no table contributes is that of its first registration in scope. */
  lemma FirstPackageRow(sc: Scope, tables: seq<Entry>, custom: seq<Entry>, name: string, i: nat)
    requires forall k :: 0 <= k < |tables| ==> !FromTable(sc, custom, tables[k], name)
    requires i < |custom| && Registered(sc, custom[i], name) && forall k :: 0 <= k < i ==> !Registered(sc, custom[k], name)
    ensures var named := Named(AllRows(sc, tables, custom), name);
            named != [] && named[0] == Row(name, PackagePath(sc, custom[i]))
  {
    hide FromTable, TableRows, PackageRows, PackagePath, Registered, Named;
    NoneBefore(sc, tables, custom, name);
    NamedAppend(FlatMap(tables, e => TableRows(sc, custom, e)), FlatMap(custom, e => PackageRows(sc, e)), name);
    FirstRegisteredRow(sc, custom, name, i);
  }

  /** For service, package, table and column scopes: the list contains exactly the in-scope actions,
      in strictly increasing order of name. An action a table in scope contributes is paired with the
      path of the first such table in registry order, any other with the package path of its first
      registration in scope. */
  lemma ListingMeans(sc: Scope, tables: seq<Entry>, custom: seq<Entry>, out: seq<ActionRow>, name: string)
    requires Summary(AllRows(sc, tables, custom), out)
    ensures StrictlySorted(out)
    ensures (exists j :: 0 <= j < |out| && out[j].name == name) <==> InScope(sc, tables, custom, name)
    ensures forall i, j :: 0 <= i < |tables| && 0 <= j < |out| && out[j].name == name && FromTable(sc, custom, tables[i], name)
              && (forall k :: 0 <= k < i ==> !FromTable(sc, custom, tables[k], name))
              ==> out[j] == Row(name, TablePath(sc, tables[i]))
    ensures forall i, j :: 0 <= i < |custom| && 0 <= j < |out| && out[j].name == name && Registered(sc, custom[i], name)
              && (forall k :: 0 <= k < i ==> !Registered(sc, custom[k], name))
              && (forall k :: 0 <= k < |tables| ==> !FromTable(sc, custom, tables[k], name))
              ==> out[j] == Row(name, PackagePath(sc, custom[i]))
  {
    hide AllRows, FromTable, TablePath, PackagePath, Registered, Less, Named;
    RowsInScope(sc, tables, custom, name);
    forall i, j | 0 <= i < |tables| && 0 <= j < |out| && out[j].name == name && FromTable(sc, custom, tables[i], name)
                  && (forall k :: 0 <= k < i ==> !FromTable(sc, custom, tables[k], name))
      ensures out[j] == Row(name, TablePath(sc, tables[i]))
    {
      FirstTableRow(sc, tables, custom, name, i);
    }
    forall i, j | 0 <= i < |custom| && 0 <= j < |out| && out[j].name == name && Registered(sc, custom[i], name)
                  && (forall k :: 0 <= k < i ==> !Registered(sc, custom[k], name))
                  && (forall k :: 0 <= k < |tables| ==> !FromTable(sc, custom, tables[k], name))
      ensures out[j] == Row(name, PackagePath(sc, custom[i]))
    {
      FirstPackageRow(sc, tables, custom, name, i);
    }
  }

  // ---------------------------------------------------------------- table scope

  function TableScope(service: string, e: Entry): Scope { Scope(Some(e.package), Some(e.name), service) }

  /** At the scope of a registered table the list holds that table's own actions only, if and only
      if nothing else is registered for its package. */
  lemma TableScopeIff(service: string, e: Entry, tables: seq<Entry>, custom: seq<Entry>, out: seq<ActionRow>)
    requires e in tables && Summary(AllRows(TableScope(service, e), tables, custom), out)
    ensures (forall j :: 0 <= j < |out| ==> out[j].name in TableActions(custom, e))
            <==> forall c :: c in custom && c.package == e.package ==> c.name in TableActions(custom, e)
  {
    hide AllRows, TableActions, Less, Named;
    var sc := TableScope(service, e);
    forall name ensures InScope(sc, tables, custom, name) <==> name in TableActions(custom, e) || Entry(e.package, name) in custom {
      AtTableScope(service, e, tables, custom, name);
    }
    if forall j :: 0 <= j < |out| ==> out[j].name in TableActions(custom, e) {
      forall c | c in custom && c.package == e.package ensures c.name in TableActions(custom, e) {
        ListingMeans(sc, tables, custom, out, c.name);
        assert c == Entry(e.package, c.name);
      }
    } else {
      var j :| 0 <= j < |out| && out[j].name !in TableActions(custom, e);
      ListingMeans(sc, tables, custom, out, out[j].name);
      assert Entry(e.package, out[j].name) in custom;
    }
  }

  lemma AtTableScope(service: string, e: Entry, tables: seq<Entry>, custom: seq<Entry>, name: string)
    requires e in tables
    ensures InScope(TableScope(service, e), tables, custom, name)
            <==> name in TableActions(custom, e) || Entry(e.package, name) in custom
  {
    hide TableActions;
    var sc := TableScope(service, e);
    var k :| 0 <= k < |tables| && tables[k] == e;
    assert FromTable(sc, custom, tables[k], name) <==> name in TableActions(custom, e);
    forall i | 0 <= i < |tables| && FromTable(sc, custom, tables[i], name) ensures tables[i] == e {
    }
    if Entry(e.package, name) in custom {
      var i :| 0 <= i < |custom| && custom[i] == Entry(e.package, name);
    }
  }

  lemma OwnActionsEnd(custom: seq<Entry>, e: Entry, name: string)
    requires name in TableActions(custom, e) && PascalCase(e.name) != ""
    ensures name != "" && name[|name| - 1] == PascalCase(e.name)[|PascalCase(e.name)| - 1]
  {
    hide PascalCase, Extensible;
  }

  lemma GetOfB(custom: seq<Entry>)
    ensures "getB" in CrudActions("b") && "getB" !in TableActions(custom, Entry("p", "a"))
  {
    hide PascalCase, TableActions;
    OneLetter("a");
    OneLetter("b");
    assert "get" + "B" == "getB" && CrudActions("b")[0] == "get" + "B";
    if "getB" in TableActions(custom, Entry("p", "a")) {
      OwnActionsEnd(custom, Entry("p", "a"), "getB");
    }
  }

  /** So the list at one table can name another table's CRUD action, with the package path: in any
      registry with tables a and b of a package in which b's `getB` is stored. */
  lemma OtherTableListed(custom: seq<Entry>, out: seq<ActionRow>)
    requires Entry("p", "getB") in custom
    requires Summary(AllRows(TableScope("service:s", Entry("p", "a")), [Entry("p", "a"), Entry("p", "b")], custom), out)
    ensures "getB" in CrudActions("b") && Row("getB", "service:s/package:p") in out
  {
    hide AllRows, Less, Named, TableActions, CrudActions;
    var a, b := Entry("p", "a"), Entry("p", "b");
    var sc, tables := TableScope("service:s", a), [a, b];
    GetOfB(custom);
    AtTableScope("service:s", a, tables, custom, "getB");
    ListingMeans(sc, tables, custom, out, "getB");
    var i := FirstRegistration(sc, custom, "getB");
    var j :| 0 <= j < |out| && out[j].name == "getB";
    assert PackagePath(sc, custom[i]) == "service:s" + "/" + ("package:" + "p");
    assert "service:s" + "/" + ("package:" + "p") == "service:s/package:p";
    assert out[j] == Row("getB", PackagePath(sc, custom[i]));
  }

  lemma OneLetter(s: string)
    requires s == "a" || s == "b"
    ensures PascalCase(s) == if s == "a" then "A" else "B"
  {
    assert s[1..] == "" && Split("", '_') == [""] && [""][1..] == [] && [s[0]] + "" == s;
    assert Split(s, '_') == [s] + [];
    assert [s] + [] == [s] && [s][1..] == [] && Capitalized([]) == "";
    assert Capitalize(s) == (if s == "a" then "A" else "B") + "";
  }

  lemma FirstRegistration(sc: Scope, custom: seq<Entry>, name: string) returns (i: nat)
    requires exists i :: 0 <= i < |custom| && Registered(sc, custom[i], name)
    ensures i < |custom| && Registered(sc, custom[i], name) && forall k :: 0 <= k < i ==> !Registered(sc, custom[k], name)
  {
    hide Registered;
    ghost var bound :| 0 <= bound < |custom| && Registered(sc, custom[bound], name);
    i := 0;
    while !Registered(sc, custom[i], name)
      invariant i <= bound && forall k :: 0 <= k < i ==> !Registered(sc, custom[k], name)
      decreases bound - i
    {
      i := i + 1;
    }
  }
}
