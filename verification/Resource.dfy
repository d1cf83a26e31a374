/** Resource paths of `src/policy/resource.rs`: types and ids of entities, wildcard patterns, and
    the entity chain the authorizer builds for a request. */
module Resource {
  import opened Prelude

  datatype EntityType = Service | Package | Table | Column | Query | View

  datatype Uid = Uid(ty: EntityType, id: string)

  // ---------------------------------------------------------------- splitting text

  /** `str::split`: always at least one piece. */
  function Split(s: string, sep: char): (r: seq<string>)
    ensures |r| >= 1
  {
    if s == "" then [""]
    else
      var r := Split(s[1..], sep);
      if s[0] == sep then [""] + r else [[s[0]] + r[0]] + r[1..]
  }

  lemma {:induction false} SplitPieces(s: string, sep: char)
    ensures forall i :: 0 <= i < |Split(s, sep)| ==> sep !in Split(s, sep)[i]
    ensures Join(Split(s, sep), [sep]) == s
  {
    if s != "" {
      var r := Split(s[1..], sep);
      SplitPieces(s[1..], sep);
      if s[0] == sep {
        ConsParts("", r);
        assert Join([""] + r, [sep]) == "" + [sep] + Join(r, [sep]);
        assert s == [s[0]] + s[1..];
      } else {
        var head := [s[0]] + r[0];
        ConsParts(head, r[1..]);
        assert [head] + r[1..] == Split(s, sep);
        if |r| == 1 {
          assert [head] + r[1..] == [head];
          assert Join(r, [sep]) == r[0];
        } else {
          assert Join([head] + r[1..], [sep]) == head + [sep] + Join(r[1..], [sep]);
          assert Join(r, [sep]) == r[0] + [sep] + Join(r[1..], [sep]);
          assert ([s[0]] + r[0]) + [sep] + Join(r[1..], [sep]) == [s[0]] + (r[0] + [sep] + Join(r[1..], [sep]));
        }
        assert s == [s[0]] + s[1..];
      }
    }
  }

  /** Pieces without the separator are recovered from their join. */
  lemma {:induction false} SplitJoin(parts: seq<string>, sep: char)
    requires parts != [] && forall i :: 0 <= i < |parts| ==> sep !in parts[i]
    ensures Split(Join(parts, [sep]), sep) == parts
    decreases |parts|
  {
    AppendNil(parts[0]);
    HeadTail(parts);
    if |parts| == 1 {
      SplitFront(parts[0], "", sep);
      assert Split("", sep) == [""] && [""][1..] == [] && parts[1..] == [];
    } else {
      var joined := Join(parts[1..], [sep]);
      var rest := [sep] + joined;
      SplitJoin(parts[1..], sep);
      ConsParts(sep, joined);
      assert Split(rest, sep) == [""] + parts[1..];
      ConsParts("", parts[1..]);
      SplitFront(parts[0], rest, sep);
      Assoc(parts[0], [sep], joined);
    }
  }

  /** Text without the separator ends up in front of the first piece. */
  lemma {:induction false} SplitFront(a: string, b: string, sep: char)
    requires sep !in a
    ensures Split(a + b, sep) == [a + Split(b, sep)[0]] + Split(b, sep)[1..]
    decreases |a|
  {
    if a == "" {
      assert a + b == b && "" + Split(b, sep)[0] == Split(b, sep)[0];
      HeadTail(Split(b, sep));
    } else {
      SplitFront(a[1..], b, sep);
      var s := a + b;
      assert s[0] == a[0] && s[1..] == a[1..] + b;
      var r := Split(b, sep);
      var inner := [a[1..] + r[0]] + r[1..];
      assert inner[0] == a[1..] + r[0] && inner[1..] == r[1..];
      assert [a[0]] + (a[1..] + r[0]) == a + r[0] by { Assoc([a[0]], a[1..], r[0]); HeadTail(a); }
      assert a[0] in a;
    }
  }

  predicate NotColon(c: char) { c != ':' }

  /** The text before and after the first colon, if there is one. */
  function SplitOnce(s: string): Option<(string, string)> {
    var e := SkipWhile(s, 0, NotColon);
    if e == |s| then None else Some((s[..e], s[e + 1..]))
  }

  // ---------------------------------------------------------------- types and ids

  function SegmentType(segment: string): EntityType {
    match SplitOnce(segment)
    case None => Service
    case Some((prefix, _)) =>
      if prefix == "package" then Package
      else if prefix == "table" then Table
      else if prefix == "column" then Column
      else if prefix == "query" then Query
      else if prefix == "view" then View
      else Service
  }

  predicate AllowsParent(child: EntityType, parent: EntityType) {
    || (child == Package && parent == Service)
    || (child == Table && parent == Package)
    || (child == Column && parent == Table)
    || (child == Query && parent == Package)
    || (child == View && parent == Package)
  }

  function StripPrefix(segment: string): string {
    match SplitOnce(segment)
    case None => segment
    case Some((_, id)) => id
  }

  function Stripped(segments: seq<string>): (r: seq<string>)
    ensures |r| == |segments|
  {
    seq(|segments|, i requires 0 <= i < |segments| => StripPrefix(segments[i]))
  }

  function Last(segments: seq<string>): string
    requires segments != []
  {
    segments[|segments| - 1]
  }

  function EntityTypeOf(path: string): EntityType { SegmentType(Last(Split(path, '/'))) }

  function EntityId(segments: seq<string>): string { Join(Stripped(segments), "/") }

  function ResourceUid(path: string): Uid { Uid(EntityTypeOf(path), EntityId(Split(path, '/'))) }

  predicate IsWildcard(path: string) { '*' in path }

  // ---------------------------------------------------------------- wildcard patterns

  datatype Elem = Wildcard | Literal(text: string)

  function Lits(text: string): seq<Elem> { if text == "" then [] else [Literal(text)] }

  /** The pieces after the first, each behind a wildcard. */
  function PatternTail(parts: seq<string>): seq<Elem> {
    if parts == [] then [] else [Wildcard] + (Lits(parts[0]) + PatternTail(parts[1..]))
  }

  function Pattern(parts: seq<string>): seq<Elem>
    requires parts != []
  {
    Lits(parts[0]) + PatternTail(parts[1..])
  }

  /** The elements one round of the loop pushes. */
  function Pushed(parts: seq<string>, i: nat): seq<Elem>
    requires i < |parts|
  {
    (if i > 0 then [Wildcard] else []) + Lits(parts[i])
  }

  /** What is still to be pushed from round `i` on. */
  function Remaining(parts: seq<string>, i: nat): seq<Elem>
    requires parts != [] && i <= |parts|
  {
    if i == 0 then Pattern(parts) else PatternTail(parts[i..])
  }

  lemma RoundPushes(parts: seq<string>, i: nat)
    requires i < |parts|
    ensures Remaining(parts, i) == Pushed(parts, i) + Remaining(parts, i + 1)
  {
    if i == 0 {
      assert [] + Lits(parts[0]) == Lits(parts[0]);
    } else {
      assert parts[i..][1..] == parts[i + 1..];
      Assoc([Wildcard], Lits(parts[i]), PatternTail(parts[i + 1..]));
    }
  }

  /** `like_pattern`. */
  method LikePattern(path: string) returns (elems: seq<Elem>)
    ensures elems == Pattern(Split(path, '*'))
    ensures forall s :: Matches(elems, s) <==> Glob(path, s)
  {
    hide Matches, Glob, Split, Pattern, PatternTail, Remaining;
    var parts := Split(path, '*');
    elems := [];
    assert [] + Remaining(parts, 0) == Pattern(parts) by { FirstRound(parts); }
    for i := 0 to |parts|
      invariant elems + Remaining(parts, i) == Pattern(parts)
    {
      ghost var before := elems;
      if i > 0 {
        elems := elems + [Wildcard];
      }
      if parts[i] != "" {
        elems := elems + [Literal(parts[i])];
      }
      assert elems == before + Pushed(parts, i);
      RoundPushes(parts, i);
      Assoc(before, Pushed(parts, i), Remaining(parts, i + 1));
    }
    LastRound(parts);
    AppendNil(elems);
    forall s ensures Matches(elems, s) <==> Glob(path, s) {
      PatternIsGlob(path, s);
    }
  }

  lemma FirstRound(parts: seq<string>)
    requires parts != []
    ensures [] + Remaining(parts, 0) == Pattern(parts)
  {
  }

  lemma LastRound(parts: seq<string>)
    requires parts != []
    ensures Remaining(parts, |parts|) == []
  {
    assert parts[|parts|..] == [];
  }

  /** Cedar's `like` on a list of elements. */
  predicate Matches(elems: seq<Elem>, s: string)
    decreases |elems| + |s|
  {
    if elems == [] then s == ""
    else match elems[0]
      case Wildcard => Matches(elems[1..], s) || (s != "" && Matches(elems, s[1..]))
      case Literal(t) => t <= s && Matches(elems[1..], s[|t|..])
  }

  /** Character-level globbing: `*` stands for any run, slashes and the empty run included. */
  predicate Glob(p: string, s: string)
    decreases |p| + |s|
  {
    if p == "" then s == ""
    else if p[0] == '*' then Glob(p[1..], s) || (s != "" && Glob(p, s[1..]))
    else s != "" && s[0] == p[0] && Glob(p[1..], s[1..])
  }

  lemma LongerLiteral(c: char, text: string, rest: seq<Elem>, s: string)
    ensures Matches([Literal([c] + text)] + rest, s) <==> s != "" && s[0] == c && Matches(Lits(text) + rest, s[1..])
  {
    var es := [Literal([c] + text)] + rest;
    assert es[0] == Literal([c] + text) && es[1..] == rest;
    if s != "" {
      assert [c] + text <= s <==> s[0] == c && text <= s[1..];
      if text <= s[1..] {
        assert s[|[c] + text|..] == s[1..][|text|..];
      }
    }
    if text == "" {
      assert Lits(text) + rest == rest;
      assert s != "" ==> s[1..][0..] == s[1..];
      assert s != "" ==> s[|[c] + text|..] == s[1..];
    } else {
      var fs := Lits(text) + rest;
      assert fs[0] == Literal(text) && fs[1..] == rest;
    }
  }

  /** The element list of a pattern matches exactly what the pattern's characters say. */
  lemma {:induction false} PatternIsGlob(p: string, s: string)
    ensures Matches(Pattern(Split(p, '*')), s) <==> Glob(p, s)
    decreases |p| + |s|
  {
    if p == "" {
      assert Split(p, '*') == [""] && [""][1..] == [];
      assert Pattern([""]) == [];
    } else {
      var r := Split(p[1..], '*');
      if p[0] == '*' {
        ConsParts("", r);
        assert Split(p, '*') == [""] + r;
        assert Pattern(Split(p, '*')) == [] + ([Wildcard] + Pattern(r));
        assert [] + ([Wildcard] + Pattern(r)) == [Wildcard] + Pattern(r);
        ConsParts(Wildcard, Pattern(r));
        PatternIsGlob(p[1..], s);
        if s != "" {
          PatternIsGlob(p, s[1..]);
        }
      } else {
        ConsParts([p[0]] + r[0], r[1..]);
        assert Split(p, '*') == [[p[0]] + r[0]] + r[1..];
        LongerLiteral(p[0], r[0], PatternTail(r[1..]), s);
        if s != "" {
          PatternIsGlob(p[1..], s[1..]);
        }
      }
    }
  }

  lemma {:induction false} StarMatchesAll(s: string)
    ensures Glob("*", s)
  {
    assert "*"[1..] == "";
    if s != "" {
      StarMatchesAll(s[1..]);
    }
  }

  // ---------------------------------------------------------------- the entity chain

  /** An entity with its `path` attribute and parents. */
  datatype Entity = Entity(uid: Uid, path: string, parents: set<Uid>)

  /** Ids a Cedar uid literal carries as they are; how other ids are unescaped is the uid reader's. */
  predicate PlainText(s: string) { '"' !in s && '\\' !in s && '\r' !in s }

  function ParseUid(unescape: string -> Option<string>, ty: EntityType, id: string): Option<Uid> {
    if PlainText(id) then Some(Uid(ty, id))
    else match unescape(id) case None => None case Some(x) => Some(Uid(ty, x))
  }

  function PathUpTo(segments: seq<string>, i: nat): string
    requires i < |segments|
  {
    Join(segments[..i + 1], "/")
  }

  function UidAt(segments: seq<string>, i: nat): Uid
    requires i < |segments|
  {
    Uid(SegmentType(segments[i]), EntityId(segments[..i + 1]))
  }

  /** The entity of one segment of a plain path. */
  function ChainEntity(segments: seq<string>, i: nat): Entity
    requires i < |segments|
  {
    Entity(UidAt(segments, i), PathUpTo(segments, i),
           if i > 0 && AllowsParent(SegmentType(segments[i]), SegmentType(segments[i - 1])) then {UidAt(segments, i - 1)} else {})
  }

  /** `build_resource_chain`. */
  method BuildResourceChain(unescape: string -> Option<string>, path: string) returns (entities: seq<Entity>)
    ensures PlainText(path) ==>
              |entities| == |Split(path, '/')|
              && forall i :: 0 <= i < |entities| ==> entities[i] == ChainEntity(Split(path, '/'), i)
  {
    hide Split, Join, SegmentType, EntityId, PlainText, AllowsParent;
    var segments := Split(path, '/');
    entities := [];
    var parent: Option<(EntityType, Uid)> := None;
    for i := 0 to |segments|
      invariant PlainText(path) ==> |entities| == i
      invariant PlainText(path) ==> forall k :: 0 <= k < i ==> entities[k] == ChainEntity(segments, k)
      invariant PlainText(path) ==>
                  parent == if i == 0 then None else Some((SegmentType(segments[i - 1]), UidAt(segments, i - 1)))
    {
      var ty := SegmentType(segments[i]);
      if PlainText(path) {
        PlainIds(path, i);
        assert ParseUid(unescape, ty, EntityId(segments[..i + 1])) == Some(UidAt(segments, i));
      }
      match ParseUid(unescape, ty, EntityId(segments[..i + 1])) {
        case None => parent := None;
        case Some(uid) =>
          var parents := if parent.Some? && AllowsParent(ty, parent.value.0) then {parent.value.1} else {};
          entities := entities + [Entity(uid, Join(segments[..i + 1], "/"), parents)];
          parent := Some((ty, uid));
      }
    }
  }

  lemma {:induction false} JoinChars(parts: seq<string>, c: char)
    requires c != '/' && forall i :: 0 <= i < |parts| ==> c !in parts[i]
    ensures c !in Join(parts, "/")
  {
    if |parts| > 1 {
      JoinChars(parts[1..], c);
    }
  }

  lemma {:induction false} PieceChars(s: string, sep: char, c: char)
    requires c !in s
    ensures forall i :: 0 <= i < |Split(s, sep)| ==> c !in Split(s, sep)[i]
  {
    if s != "" {
      PieceChars(s[1..], sep, c);
    }
  }

  lemma PlainIds(path: string, i: nat)
    requires PlainText(path) && i < |Split(path, '/')|
    ensures PlainText(EntityId(Split(path, '/')[..i + 1]))
  {
    var segments := Split(path, '/')[..i + 1];
    PieceChars(path, '/', '"');
    PieceChars(path, '/', '\\');
    PieceChars(path, '/', '\r');
    forall k | 0 <= k < |segments| ensures '"' !in Stripped(segments)[k] && '\\' !in Stripped(segments)[k] {
    }
    JoinChars(Stripped(segments), '"');
    JoinChars(Stripped(segments), '\\');
    JoinChars(Stripped(segments), '\r');
  }

  lemma {:induction false} JoinGrows(parts: seq<string>, i: nat, j: nat)
    requires 0 < i < j <= |parts|
    ensures |Join(parts[..i], "/")| < |Join(parts[..j], "/")|
    decreases i
  {
    if i == 1 {
      assert parts[..1] == [parts[0]] && parts[..j][0] == parts[0];
      assert Join(parts[..j], "/") == parts[0] + "/" + Join(parts[..j][1..], "/");
    } else {
      JoinGrows(parts[1..], i - 1, j - 1);
      assert parts[..i][1..] == parts[1..][..i - 1] && parts[..j][1..] == parts[1..][..j - 1];
      assert Join(parts[..i], "/") == parts[0] + "/" + Join(parts[..i][1..], "/");
      assert Join(parts[..j], "/") == parts[0] + "/" + Join(parts[..j][1..], "/");
    }
  }

  /** Every entity of a chain has its own uid. */
  lemma UidsDistinct(segments: seq<string>, i: nat, j: nat)
    requires i < j < |segments|
    ensures UidAt(segments, i) != UidAt(segments, j)
  {
    assert Stripped(segments[..i + 1]) == Stripped(segments)[..i + 1];
    assert Stripped(segments[..j + 1]) == Stripped(segments)[..j + 1];
    JoinGrows(Stripped(segments), i + 1, j + 1);
  }

  /** The last entity is the request's resource, carrying the whole path. */
  lemma {:induction false} LastEntity(path: string)
    ensures var segments := Split(path, '/'); var last := ChainEntity(segments, |segments| - 1);
            last.uid == ResourceUid(path) && last.path == path
  {
    var segments := Split(path, '/');
    assert segments[..|segments|] == segments;
    SplitPieces(path, '/');
  }

  /** The type of a segment, by its prefix. */
  predicate Kind(segment: string, ty: EntityType) {
    match ty
    case Package => "package:" <= segment
    case Table => "table:" <= segment
    case Column => "column:" <= segment
    case Query => "query:" <= segment
    case View => "view:" <= segment
    case Service =>
      !("package:" <= segment) && !("table:" <= segment) && !("column:" <= segment) && !("query:" <= segment) && !("view:" <= segment)
  }

  lemma PrefixIs(segment: string, prefix: string)
    requires ':' !in prefix
    ensures prefix + ":" <= segment <==> SplitOnce(segment).Some? && SplitOnce(segment).value.0 == prefix
  {
    var e := SkipWhile(segment, 0, NotColon);
    if prefix + ":" <= segment {
      forall i | 0 <= i < |prefix| ensures NotColon(segment[i]) {
        assert segment[i] == (prefix + ":")[i] && prefix[i] in prefix;
      }
      assert segment[|prefix|] == (prefix + ":")[|prefix|] == ':';
      SkipWhileStopsAt(segment, 0, NotColon, |prefix|);
      assert segment[..|prefix|] == (prefix + ":")[..|prefix|] == prefix;
    }
    if e < |segment| && segment[..e] == prefix {
      assert segment[..e + 1] == prefix + ":";
    }
  }

  lemma KindIs(segment: string, ty: EntityType)
    ensures SegmentType(segment) == ty <==> Kind(segment, ty)
  {
    hide SplitOnce;
    assert "package" + ":" == "package:" && "table" + ":" == "table:" && "column" + ":" == "column:";
    assert "query" + ":" == "query:" && "view" + ":" == "view:";
    PrefixIs(segment, "package");
    PrefixIs(segment, "table");
    PrefixIs(segment, "column");
    PrefixIs(segment, "query");
    PrefixIs(segment, "view");
  }

  /** A package hangs below a service, a table, query or view below a package, a column below a
      table; an entity's parent is the one of the segment before it, if that is of this kind. */
  lemma ParentIs(segments: seq<string>, i: nat)
    requires i < |segments|
    ensures ChainEntity(segments, i).parents
            == if i > 0
                  && ((Kind(segments[i], Package) && Kind(segments[i - 1], Service))
                      || (Kind(segments[i], Table) && Kind(segments[i - 1], Package))
                      || (Kind(segments[i], Query) && Kind(segments[i - 1], Package))
                      || (Kind(segments[i], View) && Kind(segments[i - 1], Package))
                      || (Kind(segments[i], Column) && Kind(segments[i - 1], Table)))
               then {ChainEntity(segments, i - 1).uid} else {}
  {
    hide SegmentType, Kind, EntityId;
    forall ty ensures SegmentType(segments[i]) == ty <==> Kind(segments[i], ty) {
      KindIs(segments[i], ty);
    }
    if i > 0 {
      var above := segments[i - 1];
      forall ty ensures SegmentType(above) == ty <==> Kind(above, ty) {
        KindIs(above, ty);
      }
    }
  }

  /** The path and the id of an entity, split at the slashes, are the segments up to its own, as they
      are and without their prefixes. */
  lemma ChainTexts(path: string, i: nat)
    requires i < |Split(path, '/')|
    ensures var segments := Split(path, '/'); var e := ChainEntity(segments, i);
            && Split(e.path, '/') == segments[..i + 1] && Kind(segments[i], e.uid.ty)
            && |Split(e.uid.id, '/')| == i + 1
            && forall k :: 0 <= k <= i ==> Unprefixed(segments[k], Split(e.uid.id, '/')[k])
  {
    hide Split, SegmentType, Kind;
    var segments := Split(path, '/');
    SplitPieces(path, '/');
    KindIs(segments[i], SegmentType(segments[i]));
    SplitJoin(segments[..i + 1], '/');
    var ids := Stripped(segments[..i + 1]);
    forall k | 0 <= k <= i ensures '/' !in ids[k] && Unprefixed(segments[k], ids[k]) {
      StripIs(segments[k]);
    }
    SplitJoin(ids, '/');
    assert ['/'] == "/";
  }

  /** Without the text up to its first colon, if it has one. */
  ghost predicate Unprefixed(segment: string, id: string) {
    (':' !in segment && id == segment) || exists prefix :: ':' !in prefix && segment == prefix + ":" + id
  }

  lemma StripIs(segment: string)
    ensures Unprefixed(segment, StripPrefix(segment))
    ensures forall c :: c !in segment ==> c !in StripPrefix(segment)
  {
    var e := SkipWhile(segment, 0, NotColon);
    if e < |segment| {
      assert segment == segment[..e] + ":" + segment[e + 1..];
    }
  }

  // ---------------------------------------------------------------- canonical paths

  datatype Place =
    | OfService(s: string) | OfPackage(s: string, p: string)
    | OfTable(s: string, p: string, x: string) | OfColumn(s: string, p: string, x: string, c: string)
    | OfQuery(s: string, p: string, x: string) | OfView(s: string, p: string, x: string)

  function Segments(pl: Place): seq<string> {
    match pl
    case OfService(s) => ["service:" + s]
    case OfPackage(s, p) => ["service:" + s, "package:" + p]
    case OfTable(s, p, x) => ["service:" + s, "package:" + p, "table:" + x]
    case OfColumn(s, p, x, c) => ["service:" + s, "package:" + p, "table:" + x, "column:" + c]
    case OfQuery(s, p, x) => ["service:" + s, "package:" + p, "query:" + x]
    case OfView(s, p, x) => ["service:" + s, "package:" + p, "view:" + x]
  }

  function Ids(pl: Place): seq<string> {
    match pl
    case OfService(s) => [s]
    case OfPackage(s, p) => [s, p]
    case OfColumn(s, p, x, c) => [s, p, x, c]
    case _ => [pl.s, pl.p, pl.x]
  }

  function TypeOf(pl: Place): EntityType {
    match pl
    case OfService(_) => Service case OfPackage(_, _) => Package case OfTable(_, _, _) => Table
    case OfColumn(_, _, _, _) => Column case OfQuery(_, _, _) => Query case OfView(_, _, _) => View
  }

  function PathOf(pl: Place): string { Join(Segments(pl), "/") }

  predicate PlaceOk(pl: Place) { forall i :: 0 <= i < |Ids(pl)| ==> '/' !in Ids(pl)[i] }

  lemma Prefixed(prefix: string, id: string)
    requires ':' !in prefix
    ensures SplitOnce(prefix + ":" + id) == Some((prefix, id))
  {
    var s := prefix + ":" + id;
    SkipWhileStopsAt(s, 0, NotColon, |prefix|);
    assert s[..|prefix|] == prefix && s[|prefix| + 1..] == id;
  }

  lemma SegmentFact(prefix: string, id: string)
    requires ':' !in prefix
    ensures StripPrefix(prefix + ":" + id) == id
    ensures SegmentType(prefix + ":" + id)
            == if prefix == "package" then Package else if prefix == "table" then Table
               else if prefix == "column" then Column else if prefix == "query" then Query
               else if prefix == "view" then View else Service
  {
    hide SplitOnce;
    Prefixed(prefix, id);
  }

  lemma PlaceSegments(pl: Place)
    ensures Stripped(Segments(pl)) == Ids(pl) && SegmentType(Last(Segments(pl))) == TypeOf(pl)
  {
    hide StripPrefix, SegmentType;
    assert "service:" + pl.s == "service" + ":" + pl.s;
    SegmentFact("service", pl.s);
    if !pl.OfService? {
      assert "package:" + pl.p == "package" + ":" + pl.p;
      SegmentFact("package", pl.p);
      if !pl.OfPackage? {
        var kind := if pl.OfQuery? then "query" else if pl.OfView? then "view" else "table";
        assert pl.OfQuery? ==> "query:" + pl.x == "query" + ":" + pl.x;
        assert pl.OfView? ==> "view:" + pl.x == "view" + ":" + pl.x;
        assert kind == "table" ==> "table:" + pl.x == "table" + ":" + pl.x;
        SegmentFact(kind, pl.x);
        if pl.OfColumn? {
          assert "column:" + pl.c == "column" + ":" + pl.c;
          SegmentFact("column", pl.c);
        }
      }
    }
  }

  lemma CanonicalUid(pl: Place)
    requires PlaceOk(pl)
    ensures Split(PathOf(pl), '/') == Segments(pl)
    ensures ResourceUid(PathOf(pl)) == Uid(TypeOf(pl), Join(Ids(pl), "/"))
  {
    hide Join, Split, StripPrefix, SegmentType;
    forall i | 0 <= i < |Segments(pl)| ensures '/' !in Segments(pl)[i] {
      assert '/' !in Ids(pl)[i];
    }
    SplitJoin(Segments(pl), '/');
    PlaceSegments(pl);
  }

  /** On canonical paths type and id determine the path, so an exact policy names only its own. */
  lemma UidDeterminesPath(a: Place, b: Place)
    requires PlaceOk(a) && PlaceOk(b) && ResourceUid(PathOf(a)) == ResourceUid(PathOf(b))
    ensures a == b
  {
    hide Join, Split, Ids, PathOf, PlaceOk, TypeOf, ResourceUid;
    CanonicalUid(a);
    CanonicalUid(b);
    IdsOk(a);
    IdsOk(b);
    SplitJoin(Ids(a), '/');
    SplitJoin(Ids(b), '/');
    IdsDeterminePlace(a, b);
  }

  lemma IdsOk(pl: Place)
    requires PlaceOk(pl)
    ensures Ids(pl) != [] && forall i :: 0 <= i < |Ids(pl)| ==> '/' !in Ids(pl)[i]
  {
  }

  lemma IdsDeterminePlace(a: Place, b: Place)
    requires TypeOf(a) == TypeOf(b) && Ids(a) == Ids(b)
    ensures a == b
  {
    assert Ids(a)[0] == Ids(b)[0];
    assert |Ids(a)| > 1 ==> Ids(a)[1] == Ids(b)[1];
    assert |Ids(a)| > 2 ==> Ids(a)[2] == Ids(b)[2];
    assert |Ids(a)| > 3 ==> Ids(a)[3] == Ids(b)[3];
  }
}
