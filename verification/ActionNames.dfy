/** The action names derived from tables, letter by letter, and what that makes of the schema's
    declarations and of the action listing: verbs, table names and path segments as literal text. */
module ActionNames {
  import opened Prelude
  import opened Resource
  import opened Schema
  import opened Sorting
  import opened Packages
  import Rsql

  // ---------------------------------------------------------------- the name of a table

  lemma {:induction false} SplitAppend(a: string, b: string, sep: char)
    ensures Split(a + [sep] + b, sep) == Split(a, sep) + Split(b, sep)
  {
    if a == "" {
      assert ("" + [sep] + b)[1..] == b && Split("", sep) == [""];
    } else {
      var whole := a + [sep] + b;
      assert whole[0] == a[0] && whole[1..] == a[1..] + [sep] + b;
      SplitAppend(a[1..], b, sep);
      var r, rest := Split(a[1..], sep), Split(b, sep);
      assert (r + rest)[0] == r[0] && (r + rest)[1..] == r[1..] + rest;
      Assoc([[a[0]] + r[0]], r[1..], rest);
      Assoc([""], r, rest);
    }
  }

  lemma {:induction false} CapitalizedAppend(a: seq<string>, b: seq<string>)
    ensures Capitalized(a + b) == Capitalized(a) + Capitalized(b)
  {
    if a == [] {
      assert a + b == b;
    } else {
      assert (a + b)[0] == a[0] && (a + b)[1..] == a[1..] + b;
      CapitalizedAppend(a[1..], b);
      Assoc(Capitalize(a[0]), Capitalized(a[1..]), Capitalized(b));
    }
  }

  /** The name of two texts with an underscore between is the two names, one after the other. */
  lemma NameOfJoined(a: string, b: string)
    ensures PascalCase(a + "_" + b) == PascalCase(a) + PascalCase(b)
  {
    SplitAppend(a, b, '_');
    CapitalizedAppend(Split(a, '_'), Split(b, '_'));
  }

  lemma {:induction false} SplitWord(s: string, sep: char)
    requires sep !in s
    ensures Split(s, sep) == [s]
  {
    if s != "" {
      SplitWord(s[1..], sep);
      HeadTail(s);
    }
  }

  /** A text without underscore keeps everything but its first letter, and of that only the case
      changes: a to z become A to Z. */
  lemma NameOfWord(s: string)
    requires '_' !in s
    ensures s == "" ==> PascalCase(s) == ""
    ensures s != "" ==> |PascalCase(s)| == |s| && PascalCase(s)[1..] == s[1..]
    ensures forall i :: 0 <= i < 26 && s != "" && s[0] == LETTERS[i] ==> PascalCase(s)[0] == CAPITALS[i]
    ensures s != "" && s[0] !in LETTERS ==> PascalCase(s)[0] == s[0]
  {
    hide Split;
    SplitWord(s, '_');
    assert Capitalized([s]) == Capitalize(s) by {
      assert [s][1..] == [] && Capitalized([]) == "";
      AppendNil(Capitalize(s));
    }
    if s != "" {
      LettersAre(s[0]);
      UpperIs(s[0]);
    }
  }

  lemma UpperIs(c: char)
    ensures forall i :: 0 <= i < 26 && c == LETTERS[i] ==> UpperChar(c) == CAPITALS[i]
  {
    LettersAre(c);
  }

  lemma Bom()
    ensures PascalCase("bom") == "Bom"
  {
    hide PascalCase;
    NameOfWord("bom");
    assert LETTERS[1] == 'b' && CAPITALS[1] == 'B';
    hide LETTERS, CAPITALS;
    HeadTail(PascalCase("bom"));
  }

  lemma Materials()
    ensures PascalCase("materials") == "Materials"
  {
    hide PascalCase;
    NameOfWord("materials");
    assert LETTERS[12] == 'm' && CAPITALS[12] == 'M';
    hide LETTERS, CAPITALS;
    HeadTail(PascalCase("materials"));
  }

  /** For instance. */
  lemma BomMaterials()
    ensures PascalCase("bom_materials") == "BomMaterials"
  {
    hide PascalCase;
    Bom();
    Materials();
    NameOfJoined("bom", "materials");
    assert "bom" + "_" + "materials" == "bom_materials" && "Bom" + "Materials" == "BomMaterials";
  }

  // ---------------------------------------------------------------- the actions of a table

  predicate StandardAction(table: string, action: string) {
    var name := PascalCase(table);
    || action == "get" + name || action == "post" + name || action == "patch" + name || action == "put" + name
    || action == "delete" + name || action == "archive" + name || action == "unarchive" + name
  }

  predicate FieldsAction(table: string, action: string) {
    var name := PascalCase(table);
    || action == "getExtensibleFields" + name
    || action == "putExtensibleFields" + name
    || action == "deleteExtensibleFields" + name
  }

  lemma ActionsAre(table: string, action: string)
    ensures action in CrudActions(table) <==> StandardAction(table, action)
    ensures action in ExtensibleActions(table) <==> FieldsAction(table, action)
  {
    hide PascalCase;
    var c, e := CrudActions(table), ExtensibleActions(table);
    assert c == [c[0], c[1], c[2], c[3], c[4], c[5], c[6]];
    assert e == [e[0], e[1], e[2]];
  }

  /** Declared are the seven standard actions of every registered table and every registered action
      but `run`, `get` and `refresh`, for all six resource types; `run` for queries; `get` and
      `refresh` for views. */
  lemma DeclaredNames(tables: seq<Entry>, custom: seq<Entry>, action: string, ty: EntityType)
    ensures Declared(tables, custom, action, ty)
            <==> || (exists i :: 0 <= i < |tables| && StandardAction(tables[i].name, action))
                 || (ty == Query && action == "run")
                 || (ty == View && (action == "get" || action == "refresh"))
                 || (action != "run" && action != "get" && action != "refresh"
                     && exists i :: 0 <= i < |custom| && custom[i].name == action)
  {
    hide CrudActions, StandardAction, Declared;
    DeclaredMeans(tables, custom, action, ty);
    forall i | 0 <= i < |tables| ensures action in CrudActions(tables[i].name) <==> StandardAction(tables[i].name, action) {
      ActionsAre(tables[i].name, action);
    }
    assert IsBuiltin(action) <==> action == "run" || action == "get" || action == "refresh";
  }

  // ---------------------------------------------------------------- the scope of a path

  /** Some segment carries the tag. */
  predicate Has(segments: seq<string>, tag: string) { exists i :: 0 <= i < |segments| && tag <= segments[i] }

  /** The last segment that carries the tag names this. */
  predicate LastIs(segments: seq<string>, tag: string, name: string) {
    exists i :: 0 <= i < |segments| && segments[i] == tag + name && forall j :: i < j < |segments| ==> !(tag <= segments[j])
  }

  lemma TaggedIs(segment: string, tag: string, name: string)
    ensures Tagged(segment, tag) == Some(name) <==> segment == tag + name
    ensures Tagged(segment, tag).None? <==> !(tag <= segment)
  {
    if tag <= segment {
      assert segment == tag + segment[|tag|..];
    }
    if segment == tag + name {
      assert tag <= segment && segment[|tag|..] == name;
    }
  }

  lemma {:induction false} PackageIs(segments: seq<string>, p: string)
    ensures LastPackage(segments) == Some(p) <==> LastIs(segments, "package:", p)
    ensures LastPackage(segments).None? <==> !Has(segments, "package:")
    decreases |segments|
  {
    hide Tagged;
    if segments != [] {
      var n := |segments| - 1;
      var front := segments[..n];
      PackageIs(front, p);
      TaggedIs(segments[n], "package:", p);
      OneMore(segments, "package:", p);
    }
  }

  /** One more segment at the end. */
  lemma OneMore(segments: seq<string>, tag: string, name: string)
    requires segments != []
    ensures var n := |segments| - 1;
            && (tag <= segments[n] ==> Has(segments, tag) && (LastIs(segments, tag, name) <==> segments[n] == tag + name))
            && (!(tag <= segments[n]) ==>
                  && (Has(segments, tag) <==> Has(segments[..n], tag))
                  && (LastIs(segments, tag, name) <==> LastIs(segments[..n], tag, name)))
  {
    var n := |segments| - 1;
    var front := segments[..n];
    if i :| 0 <= i < |front| && front[i] == tag + name && forall j :: i < j < |front| ==> !(tag <= front[j]) {
      assert segments[i] == tag + name;
      forall j | i < j < n ensures !(tag <= segments[j]) {
        assert segments[j] == front[j];
      }
    }
    if i :| 0 <= i < |segments| && segments[i] == tag + name && forall j :: i < j < |segments| ==> !(tag <= segments[j]) {
      if i < n {
        assert front[i] == tag + name;
      }
    }
    if i :| 0 <= i < n && tag <= segments[i] {
      assert front[i] == segments[i];
    }
  }

  lemma TagsDiffer(segment: string)
    ensures !("package:" <= segment && "table:" <= segment)
  {
    assert "package:" <= segment ==> segment[0] == 'p';
    assert "table:" <= segment ==> segment[0] == 't';
  }

  lemma {:induction false} TableIs(segments: seq<string>, t: string)
    ensures LastTable(segments) == Some(t) <==> LastIs(segments, "table:", t)
    ensures LastTable(segments).None? <==> !Has(segments, "table:")
    decreases |segments|
  {
    hide Tagged;
    if segments != [] {
      var n := |segments| - 1;
      TableIs(segments[..n], t);
      TaggedIs(segments[n], "table:", t);
      TaggedIs(segments[n], "package:", t);
      TagsDiffer(segments[n]);
      OneMore(segments, "table:", t);
    }
  }

  /** The service of a path is its first segment with that tag. */
  predicate ServiceIs(segments: seq<string>, service: string) {
    if !Has(segments, "service:") then service == ""
    else exists i :: 0 <= i < |segments| && segments[i] == service && "service:" <= service
           && forall j :: 0 <= j < i ==> !("service:" <= segments[j])
  }

  lemma {:induction false} ServiceOfPath(segments: seq<string>)
    ensures ServiceIs(segments, FirstService(segments))
    decreases |segments|
  {
    if segments != [] {
      if "service:" <= segments[0] {
        assert Has(segments, "service:");
      } else {
        var rest := segments[1..];
        ServiceOfPath(rest);
        if i :| 0 <= i < |segments| && "service:" <= segments[i] {
          assert rest[i - 1] == segments[i];
        }
        if Has(rest, "service:") {
          var i :| 0 <= i < |rest| && rest[i] == FirstService(rest) && "service:" <= rest[i]
                   && forall j :: 0 <= j < i ==> !("service:" <= rest[j]);
          assert segments[i + 1] == rest[i];
          forall j | 0 <= j < i + 1 ensures !("service:" <= segments[j]) {
            assert j > 0 ==> segments[j] == rest[j - 1];
          }
        }
      }
    }
  }

  /** A path is of a kind exactly when the text after its last slash starts with the kind's tag. */
  lemma EndsInIff(resource: string, tag: string)
    requires '/' !in tag
    ensures EndsIn(resource, tag) <==> exists front, rest :: '/' !in rest && Reaches(resource, front, tag + rest)
  {
    hide Split;
    if EndsIn(resource, tag) {
      var segments := Split(resource, '/');
      var last := Last(segments);
      SplitPieces(resource, '/');
      var front := FrontOf(segments);
      assert last == tag + last[|tag|..];
      assert Reaches(resource, front, tag + last[|tag|..]);
    }
    if front, rest :| '/' !in rest && Reaches(resource, front, tag + rest) {
      SplitWord(tag + rest, '/');
      if resource != tag + rest {
        SplitAppend(front, tag + rest, '/');
        assert Split(resource, '/') == Split(front, '/') + [tag + rest];
      }
    }
  }

  /** The path is this segment, or ends in a slash and this segment. */
  predicate Reaches(resource: string, front: string, last: string) { resource == last || resource == front + "/" + last }

  lemma {:induction false} FrontOf(segments: seq<string>) returns (front: string)
    requires segments != []
    ensures Reaches(Join(segments, "/"), front, Last(segments))
  {
    front := "";
    if |segments| > 1 {
      var rest := FrontOf(segments[1..]);
      var joined := Join(segments[1..], "/");
      if joined == Last(segments[1..]) {
        front := segments[0];
      } else {
        front := segments[0] + "/" + rest;
        assert segments[0] + "/" + (rest + "/" + Last(segments)) == front + "/" + Last(segments);
      }
    }
  }

  // ---------------------------------------------------------------- the listing

  /** The path asks for this table: no package is named, or its package and no table or it. */
  predicate TableAsked(segments: seq<string>, e: Entry) {
    || !Has(segments, "package:")
    || (LastIs(segments, "package:", e.package) && (!Has(segments, "table:") || LastIs(segments, "table:", e.name)))
  }

  /** The path asks for this package. */
  predicate PackageAsked(segments: seq<string>, package: string) {
    !Has(segments, "package:") || LastIs(segments, "package:", package)
  }

  /** Some extensible-fields action of the table is registered for its package. */
  predicate FieldsStored(custom: seq<Entry>, e: Entry) {
    exists i :: 0 <= i < |custom| && custom[i].package == e.package && FieldsAction(e.name, custom[i].name)
  }

  lemma ExtensibleIff(custom: seq<Entry>, e: Entry)
    ensures Extensible(custom, e) <==> FieldsStored(custom, e)
  {
    hide ExtensibleActions, FieldsAction;
    forall action ensures action in ExtensibleActions(e.name) <==> FieldsAction(e.name, action) {
      ActionsAre(e.name, action);
    }
    if i :| 0 <= i < |ExtensibleActions(e.name)| && Entry(e.package, ExtensibleActions(e.name)[i]) in custom {
      var k :| 0 <= k < |custom| && custom[k] == Entry(e.package, ExtensibleActions(e.name)[i]);
      assert FieldsAction(e.name, custom[k].name);
    }
    if k :| 0 <= k < |custom| && custom[k].package == e.package && FieldsAction(e.name, custom[k].name) {
      var i :| 0 <= i < |ExtensibleActions(e.name)| && ExtensibleActions(e.name)[i] == custom[k].name;
      assert custom[k] == Entry(e.package, ExtensibleActions(e.name)[i]);
    }
  }

  /** The action is one of the table's, and the path asks for the table. */
  predicate TableGives(segments: seq<string>, custom: seq<Entry>, e: Entry, action: string) {
    TableAsked(segments, e) && (StandardAction(e.name, action) || (FieldsStored(custom, e) && FieldsAction(e.name, action)))
  }

  lemma GivesIff(resource: string, custom: seq<Entry>, e: Entry, action: string)
    ensures FromTable(ScopeOf(resource), custom, e, action) <==> TableGives(Split(resource, '/'), custom, e, action)
    ensures Registered(ScopeOf(resource), e, action) <==> PackageAsked(Split(resource, '/'), e.package) && e.name == action
  {
    hide Split, CrudActions, ExtensibleActions, Extensible, FieldsStored, StandardAction, FieldsAction, LastIs, Has;
    var segments := Split(resource, '/');
    PackageIs(segments, e.package);
    TableIs(segments, e.name);
    ActionsAre(e.name, action);
    ExtensibleIff(custom, e);
    if LastPackage(segments).Some? {
      PackageIs(segments, LastPackage(segments).value);
    }
    if LastTable(segments).Some? {
      TableIs(segments, LastTable(segments).value);
    }
  }

  /** What is listed for a path of another kind than query and view: the standard actions of the
      tables it asks for, their extensible-fields actions where one is stored, and the actions
      registered for the packages it asks for. */
  lemma ListedIff(resource: string, tables: seq<Entry>, custom: seq<Entry>, out: seq<ActionRow>, action: string)
    requires Summary(AllRows(ScopeOf(resource), tables, custom), out)
    ensures var segments := Split(resource, '/');
            (exists j :: 0 <= j < |out| && out[j].name == action)
            <==> || (exists i :: 0 <= i < |tables| && TableGives(segments, custom, tables[i], action))
                 || (exists i :: 0 <= i < |custom| && PackageAsked(segments, custom[i].package) && custom[i].name == action)
  {
    hide AllRows, Summary, FromTable, Registered, TableGives, PackageAsked, Split, ScopeOf;
    var sc, segments := ScopeOf(resource), Split(resource, '/');
    ListingMeans(sc, tables, custom, out, action);
    forall e ensures FromTable(sc, custom, e, action) <==> TableGives(segments, custom, e, action) {
      GivesIff(resource, custom, e, action);
    }
    forall e ensures Registered(sc, e, action) <==> PackageAsked(segments, e.package) && e.name == action {
      GivesIff(resource, custom, e, action);
    }
  }

  /** The path an action is paired with: the service of the asked path, if any, then the package, and
      the table for a table's action. */
  lemma PathsAre(resource: string, e: Entry)
    ensures var segments := Split(resource, '/'); var sc := ScopeOf(resource);
            && ServiceIs(segments, sc.service)
            && (!Has(segments, "service:") ==>
                  TablePath(sc, e) == "package:" + e.package + "/table:" + e.name && PackagePath(sc, e) == "package:" + e.package)
            && (Has(segments, "service:") ==>
                  && TablePath(sc, e) == sc.service + "/package:" + e.package + "/table:" + e.name
                  && PackagePath(sc, e) == sc.service + "/package:" + e.package)
  {
    hide Split;
    var segments, sc := Split(resource, '/'), ScopeOf(resource);
    ServiceOfPath(segments);
    var rest := "package:" + e.package;
    assert sc.service + "/" + rest == sc.service + "/package:" + e.package by {
      assert "/" + "package:" == "/package:";
    }
    assert sc.service + "/" + (rest + "/table:" + e.name) == sc.service + "/package:" + e.package + "/table:" + e.name;
  }

  // ---------------------------------------------------------------- the action of a request

  /** `derive_action_name`: the segments from the last to the first, up to the first table. */
  method DeriveAction(httpMethod: string, resource: string) returns (action: Option<string>)
    ensures action.None? <==> !Has(Split(resource, '/'), "table:")
    ensures forall t :: LastIs(Split(resource, '/'), "table:", t) ==> action == Some(Rsql.Lower(httpMethod) + PascalCase(t))
    ensures action.Some? ==> exists t :: LastIs(Split(resource, '/'), "table:", t)
  {
    hide PascalCase, Split;
    var segments := Split(resource, '/');
    var i := |segments|;
    while i > 0
      invariant 0 <= i <= |segments|
      invariant forall j :: i <= j < |segments| ==> !("table:" <= segments[j])
    {
      i := i - 1;
      var table := Tagged(segments[i], "table:");
      if table.Some? {
        TaggedIs(segments[i], "table:", table.value);
        assert LastIs(segments, "table:", table.value);
        return Some(Rsql.Lower(httpMethod) + PascalCase(table.value));
      }
    }
    action := None;
  }

  predicate TableMethod(verb: string) {
    verb == "get" || verb == "post" || verb == "patch" || verb == "put" || verb == "delete"
  }

  /** The action derived for a registered table from one of these methods, in any case, is declared
      for every resource type. */
  lemma DerivedIsDeclared(tables: seq<Entry>, custom: seq<Entry>, httpMethod: string, i: nat, ty: EntityType)
    requires i < |tables| && TableMethod(Rsql.Lower(httpMethod))
    ensures var action := Rsql.Lower(httpMethod) + PascalCase(tables[i].name);
            StandardAction(tables[i].name, action) && Declared(tables, custom, action, ty)
  {
    hide PascalCase, Declared, Rsql.Lower;
    var action := Rsql.Lower(httpMethod) + PascalCase(tables[i].name);
    assert StandardAction(tables[i].name, action);
    hide StandardAction;
    DeclaredNames(tables, custom, action, ty);
  }
}
