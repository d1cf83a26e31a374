/** From documents to decisions: loading a tenant's policies, authorizing a request, and the
    proof that the decision is what the documents say. */
module Authorization {
  import opened Prelude
  import opened Resource
  import opened Schema
  import opened Policy
  import PolicyIds

  // ---------------------------------------------------------------- loading

  function AllPolicies(docs: seq<Document>): seq<CedarPolicy> { FlatMap(docs, d => ForDocument(d)) }

  /** `get_policy_set`: compiles every document into one set; any repeated id fails the load. */
  method LoadPolicies(docs: seq<Document>) returns (set': Option<seq<CedarPolicy>>)
    ensures set'.Some? <==> IdsDistinct(AllPolicies(docs))
    ensures set'.Some? ==> set'.value == AllPolicies(docs)
  {
    hide ForDocument, IdIn;
    var ps: seq<CedarPolicy> := [];
    for i := 0 to |docs|
      invariant ps == FlatMap(docs[..i], d => ForDocument(d)) && IdsDistinct(ps)
    {
      var compiled := Compile(docs[i]);
      ghost var whole := ps + ForDocument(docs[i]);
      FlatMapPrefix(docs, d => ForDocument(d), i, ForDocument(docs[i]));
      FlatMapNext(docs, d => ForDocument(d), i);
      PrefixDistinct(whole, AllPolicies(docs));
      if compiled.None? {
        SuffixDistinct(ps, ForDocument(docs[i]));
        return None;
      }
      var added := AddAll(ps, compiled.value);
      if added.None? { return None; }
      ps := added.value;
    }
    assert docs[..|docs|] == docs;
    set' := Some(ps);
  }

  lemma SuffixDistinct(a: seq<CedarPolicy>, b: seq<CedarPolicy>)
    ensures IdsDistinct(a + b) ==> IdsDistinct(b)
  {
    assert forall i :: 0 <= i < |b| ==> (a + b)[|a| + i] == b[i];
  }

  method AddAll(start: seq<CedarPolicy>, more: seq<CedarPolicy>) returns (set': Option<seq<CedarPolicy>>)
    requires IdsDistinct(start)
    ensures set'.Some? <==> IdsDistinct(start + more)
    ensures set'.Some? ==> set'.value == start + more
  {
    var ps := start;
    for i := 0 to |more|
      invariant ps == start + more[..i] && IdsDistinct(ps)
    {
      assert start + more[..i + 1] == start + more[..i] + [more[i]];
      if IdIn(ps, more[i].id) {
        assert start + more[..i + 1] <= start + more;
        RepeatStays(ps, more[i], start + more);
        return None;
      }
      ps := ps + [more[i]];
    }
    assert more[..|more|] == more;
    set' := Some(ps);
  }

  // ---------------------------------------------------------------- authorizing

  predicate DeclaredIn(lines: seq<Decl>, action: string, ty: EntityType) {
    exists i :: 0 <= i < |lines| && lines[i].action == action && ty in lines[i].types
  }

  /** What the schema demands of the entities: distinct uids and only declared memberships. */
  predicate Conforms(es: seq<Entity>) {
    && (forall i, j :: 0 <= i < j < |es| ==> es[i].uid != es[j].uid)
    && (forall i :: 0 <= i < |es| ==> forall u :: u in es[i].parents ==> AllowsParent(es[i].uid.ty, u.ty))
  }

  function Unescaped(unescape: string -> Option<string>, s: string): Option<string> {
    if PlainText(s) then Some(s) else unescape(s)
  }

  /** The entities of a plain path. */
  function Chain(path: string): seq<Entity> {
    var segments := Split(path, '/');
    seq(|segments|, i requires 0 <= i < |segments| => ChainEntity(segments, i))
  }

  /** The `path` attributes of entities. */
  function PathsOf(es: seq<Entity>): map<Uid, string> {
    if es == [] then map[] else PathsOf(es[..|es| - 1])[es[|es| - 1].uid := es[|es| - 1].path]
  }

  /** Every chain meets the schema, so the entities are never dropped. */
  lemma ChainConforms(path: string)
    ensures Conforms(Chain(path))
  {
    hide SegmentType, EntityId, Split, PathUpTo;
    var segments := Split(path, '/');
    forall i, j | 0 <= i < j < |segments| ensures Chain(path)[i].uid != Chain(path)[j].uid {
      UidsDistinct(segments, i, j);
    }
  }

  /** The request's resource has the whole path as its `path`. */
  lemma ResourceHasPath(path: string)
    ensures ResourceUid(path) in PathsOf(Chain(path)) && PathsOf(Chain(path))[ResourceUid(path)] == path
  {
    hide ResourceUid, Split, ChainEntity;
    LastEntity(path);
  }

  /** The decision for a request whose path, action and role names are plain text. */
  predicate Decision(lines: seq<Decl>, ps: seq<CedarPolicy>, user: string, roles: set<string>, action: string, path: string) {
    && DeclaredIn(lines, action, EntityTypeOf(path))
    && Permitted(ps, Request(user, action, ResourceUid(path), roles, PathsOf(Chain(path))))
  }

  function PlainSet(names: seq<string>): set<string> { set n | n in names }

  /** `build_user_entity`: role names that are not uids are dropped. */
  method RoleParents(unescape: string -> Option<string>, names: seq<string>) returns (roles: set<string>)
    ensures (forall i :: 0 <= i < |names| ==> PlainText(names[i])) ==> roles == PlainSet(names)
  {
    roles := {};
    for i := 0 to |names|
      invariant (forall k :: 0 <= k < |names| ==> PlainText(names[k])) ==> roles == PlainSet(names[..i])
    {
      assert names[..i + 1] == names[..i] + [names[i]];
      match Unescaped(unescape, names[i]) {
        case None =>
        case Some(n) => roles := roles + {n};
      }
    }
    assert names[..|names|] == names;
  }

  /** `authorize`. */
  method Authorize(unescape: string -> Option<string>, lines: seq<Decl>, ps: seq<CedarPolicy>,
                   user: string, roleNames: seq<string>, action: string, path: string) returns (allow: bool)
    ensures PlainText(path) && PlainText(action) && (forall i :: 0 <= i < |roleNames| ==> PlainText(roleNames[i])) ==>
              allow == Decision(lines, ps, user, PlainSet(roleNames), action, path)
  {
    hide Split, EntityId, SegmentType, Permitted, Conforms, PathsOf, DeclaredIn, PlainSet, ChainEntity;
    var resource := ParseUid(unescape, EntityTypeOf(path), EntityId(Split(path, '/')));
    if PlainText(path) {
      PlainIds(path, |Split(path, '/')| - 1);
      assert Split(path, '/')[..|Split(path, '/')|] == Split(path, '/');
    }
    if resource.None? { return false; }
    var act := Unescaped(unescape, action);
    if act.None? { return false; }
    var entities := BuildResourceChain(unescape, path);
    var roles := RoleParents(unescape, roleNames);
    if PlainText(path) {
      assert entities == Chain(path);
      ChainConforms(path);
    }
    if !Conforms(entities) {
      entities := [];
      roles := {};
    }
    if !DeclaredIn(lines, act.value, resource.value.ty) { return false; }
    allow := Permitted(ps, Request(user, act.value, resource.value, roles, PathsOf(entities)));
  }

  // ---------------------------------------------------------------- the direct reading

  /** A principal that names a user: a bare id, or an id behind any prefix but `role`. */
  ghost predicate NamesUser(p: string, user: string) {
    (':' !in p && p == user) || exists prefix :: ':' !in prefix && prefix != "role" && p == prefix + ":" + user
  }

  ghost predicate PrincipalCovers(p: string, user: string, roles: set<string>) {
    p == "*" || (exists r :: r in roles && p == "role" + ":" + r) || NamesUser(p, user)
  }

  /** A wildcard covers by globbing the whole path, anything else by entity type and id. */
  predicate ResourceCovers(r: string, path: string) {
    if IsWildcard(r) then Glob(r, path) else ResourceUid(r) == ResourceUid(path)
  }

  ghost predicate Covers(s: Statement, user: string, roles: set<string>, action: string, path: string) {
    && (exists i :: 0 <= i < |s.principals| && PrincipalCovers(s.principals[i], user, roles))
    && (exists j :: 0 <= j < |s.actions| && s.actions[j] == action)
    && (exists k :: 0 <= k < |s.resources| && ResourceCovers(s.resources[k], path))
  }

  ghost predicate SomeCovers(docs: seq<Document>, effect: Effect, user: string, roles: set<string>, action: string, path: string) {
    exists i, j :: 0 <= i < |docs| && 0 <= j < |docs[i].statements| && docs[i].statements[j].effect == effect
      && Covers(docs[i].statements[j], user, roles, action, path)
  }

  // ---------------------------------------------------------------- one policy

  lemma PrincipalMeans(p: string, user: string, roles: set<string>)
    ensures (match ParsePrincipal(p)
             case AnyPrincipal => true
             case IsUser(id) => id == user
             case InRole(id) => id in roles) <==> PrincipalCovers(p, user, roles)
  {
    hide SkipWhile;
    match SplitOnce(p)
    case None =>
      NoColon(p);
    case Some((prefix, id)) =>
      forall q, x | ':' !in q && p == q + ":" + x ensures q == prefix && x == id {
        Prefixed(q, x);
      }
      assert p == prefix + ":" + id;
  }

  lemma NoColon(p: string)
    requires SplitOnce(p).None?
    ensures ':' !in p
  {
    forall c | c in p ensures c != ':' {
      var i :| 0 <= i < |p| && p[i] == c;
      assert NotColon(p[i]);
    }
  }

  lemma ResourceMeans(r: string, path: string)
    ensures && (ParseResource(r).Exactly? ==> ParseResource(r).uid == ResourceUid(path))
            && (LikeOf(r).Some? ==> Matches(LikeOf(r).value, path))
            <==> ResourceCovers(r, path)
  {
    hide ResourceUid, Matches, Glob, Split, Pattern;
    if IsWildcard(r) {
      if r == "*" {
        StarMatchesAll(path);
      } else {
        PatternIsGlob(r, path);
      }
    }
  }

  function RequestOf(user: string, roles: set<string>, action: string, path: string): Request {
    Request(user, action, ResourceUid(path), roles, PathsOf(Chain(path)))
  }

  lemma PolicyMeans(docId: string, s: Statement, principal: string, action: string, resource: string,
                    user: string, roles: set<string>, wanted: string, path: string)
    ensures Satisfied(PolicyOf(docId, s, principal, action, resource), RequestOf(user, roles, wanted, path))
            <==> PrincipalCovers(principal, user, roles) && action == wanted && ResourceCovers(resource, path)
  {
    hide ResourceUid, Matches, ParsePrincipal, ParseResource, LikeOf, PrincipalCovers, ResourceCovers, PolicyId, PathsOf, Chain;
    PrincipalMeans(principal, user, roles);
    ResourceMeans(resource, path);
    ResourceHasPath(path);
  }

  // ---------------------------------------------------------------- all policies

  lemma StatementPolicies(docId: string, s: Statement, p: CedarPolicy)
    ensures p in ForStatement(docId, s) <==>
              exists i, j, k :: 0 <= i < |s.principals| && 0 <= j < |s.actions| && 0 <= k < |s.resources|
                && p == PolicyOf(docId, s, s.principals[i], s.actions[j], s.resources[k])
  {
    hide PolicyOf;
    FlatMapMember(s.principals, x => ForPrincipal(docId, s, x), p);
    forall x ensures p in ForPrincipal(docId, s, x) <==> exists j :: 0 <= j < |s.actions| && p in ForAction(docId, s, x, s.actions[j]) {
      FlatMapMember(s.actions, a => ForAction(docId, s, x, a), p);
    }
    forall x, a ensures p in ForAction(docId, s, x, a) <==>
                          exists k :: 0 <= k < |s.resources| && p == PolicyOf(docId, s, x, a, s.resources[k])
    {
      var ps := ForAction(docId, s, x, a);
      if k :| 0 <= k < |s.resources| && p == PolicyOf(docId, s, x, a, s.resources[k]) {
        assert ps[k] == p;
      }
    }
    if i, j, k :| 0 <= i < |s.principals| && 0 <= j < |s.actions| && 0 <= k < |s.resources|
                  && p == PolicyOf(docId, s, s.principals[i], s.actions[j], s.resources[k]) {
      assert p in ForAction(docId, s, s.principals[i], s.actions[j]);
      assert p in ForPrincipal(docId, s, s.principals[i]);
    }
  }

  /** Some policy of a statement is satisfied exactly when the statement covers the request. */
  lemma StatementMeans(docId: string, s: Statement, user: string, roles: set<string>, action: string, path: string)
    ensures (exists p :: p in ForStatement(docId, s) && Satisfied(p, RequestOf(user, roles, action, path)))
            <==> Covers(s, user, roles, action, path)
    ensures forall p :: p in ForStatement(docId, s) ==> p.permit == (s.effect == Allow)
  {
    hide ForStatement, Satisfied, PrincipalCovers, ResourceCovers, RequestOf, ParsePrincipal, ParseResource, LikeOf, PolicyId;
    var r := RequestOf(user, roles, action, path);
    forall p | p in ForStatement(docId, s)
      ensures p.permit == (s.effect == Allow) && (Satisfied(p, r) ==> Covers(s, user, roles, action, path))
    {
      StatementPolicies(docId, s, p);
      var i, j, k :| 0 <= i < |s.principals| && 0 <= j < |s.actions| && 0 <= k < |s.resources|
                     && p == PolicyOf(docId, s, s.principals[i], s.actions[j], s.resources[k]);
      PolicyMeans(docId, s, s.principals[i], s.actions[j], s.resources[k], user, roles, action, path);
    }
    if Covers(s, user, roles, action, path) {
      var i :| 0 <= i < |s.principals| && PrincipalCovers(s.principals[i], user, roles);
      var j :| 0 <= j < |s.actions| && s.actions[j] == action;
      var k :| 0 <= k < |s.resources| && ResourceCovers(s.resources[k], path);
      var p := PolicyOf(docId, s, s.principals[i], s.actions[j], s.resources[k]);
      StatementPolicies(docId, s, p);
      PolicyMeans(docId, s, s.principals[i], s.actions[j], s.resources[k], user, roles, action, path);
      assert p in ForStatement(docId, s) && Satisfied(p, r);
    }
  }

  lemma MemberOfAll(docs: seq<Document>, p: CedarPolicy)
    ensures p in AllPolicies(docs) <==>
              exists i, j :: 0 <= i < |docs| && 0 <= j < |docs[i].statements| && p in ForStatement(docs[i].id, docs[i].statements[j])
  {
    hide ForStatement;
    FlatMapMember(docs, d => ForDocument(d), p);
    forall i | 0 <= i < |docs|
      ensures p in ForDocument(docs[i]) <==>
                exists j :: 0 <= j < |docs[i].statements| && p in ForStatement(docs[i].id, docs[i].statements[j])
    {
      FlatMapMember(docs[i].statements, s => ForStatement(docs[i].id, s), p);
    }
  }

  /** Some policy with the given effect is satisfied exactly when a statement with it covers. */
  lemma EffectMeans(docs: seq<Document>, effect: Effect, user: string, roles: set<string>, action: string, path: string)
    ensures (exists p :: p in AllPolicies(docs) && p.permit == (effect == Allow) && Satisfied(p, RequestOf(user, roles, action, path)))
            <==> SomeCovers(docs, effect, user, roles, action, path)
  {
    hide ForStatement, Satisfied, Covers, RequestOf, AllPolicies;
    var r := RequestOf(user, roles, action, path);
    if p :| p in AllPolicies(docs) && p.permit == (effect == Allow) && Satisfied(p, r) {
      MemberOfAll(docs, p);
      var i, j :| 0 <= i < |docs| && 0 <= j < |docs[i].statements| && p in ForStatement(docs[i].id, docs[i].statements[j]);
      StatementMeans(docs[i].id, docs[i].statements[j], user, roles, action, path);
    }
    if SomeCovers(docs, effect, user, roles, action, path) {
      var i, j :| 0 <= i < |docs| && 0 <= j < |docs[i].statements| && docs[i].statements[j].effect == effect
        && Covers(docs[i].statements[j], user, roles, action, path);
      StatementMeans(docs[i].id, docs[i].statements[j], user, roles, action, path);
      var p :| p in ForStatement(docs[i].id, docs[i].statements[j]) && Satisfied(p, r);
      MemberOfAll(docs, p);
    }
  }

  lemma PermittedMeans(ps: seq<CedarPolicy>, r: Request)
    ensures Permitted(ps, r) <==>
              (exists p :: p in ps && p.permit == (Allow == Allow) && Satisfied(p, r))
              && !(exists p :: p in ps && p.permit == (Deny == Allow) && Satisfied(p, r))
  {
    hide Satisfied;
  }

  /** The decision on loaded documents: Allow exactly when the action is declared for the resource's
      type, some Allow statement covers the request and no Deny statement does. */
  lemma DecisionMeans(lines: seq<Decl>, docs: seq<Document>, user: string, roles: set<string>, action: string, path: string)
    ensures Decision(lines, AllPolicies(docs), user, roles, action, path)
            <==> && DeclaredIn(lines, action, EntityTypeOf(path))
                 && SomeCovers(docs, Allow, user, roles, action, path)
                 && !SomeCovers(docs, Deny, user, roles, action, path)
  {
    hide AllPolicies, Satisfied, SomeCovers, Permitted, DeclaredIn, PathsOf, Chain, ResourceUid;
    PermittedMeans(AllPolicies(docs), RequestOf(user, roles, action, path));
    EffectMeans(docs, Allow, user, roles, action, path);
    EffectMeans(docs, Deny, user, roles, action, path);
  }

  /** With the schema built from the registry, "declared" is the registry's own reading. */
  lemma DeclaredInRegistry(lines: seq<Decl>, tables: seq<Schema.Entry>, custom: seq<Schema.Entry>, action: string, ty: EntityType)
    requires SchemaOf(tables, custom, lines)
    ensures DeclaredIn(lines, action, ty) <==> Declared(tables, custom, action, ty)
  {
    hide Generated;
    if d :| Generated(tables, custom, d) && d.action == action && ty in d.types {
      assert d in lines;
    }
  }

  /** An exact resource on a canonical path covers that path only. */
  lemma ExactCoversItself(a: Place, b: Place)
    requires PlaceOk(a) && PlaceOk(b) && !IsWildcard(PathOf(a))
    ensures ResourceCovers(PathOf(a), PathOf(b)) <==> PathOf(a) == PathOf(b)
  {
    hide PathOf, ResourceUid;
    if ResourceUid(PathOf(a)) == ResourceUid(PathOf(b)) {
      UidDeterminesPath(a, b);
    }
  }

  /** The registry's own reading of "declared": a verb on one of its tables, a builtin on its kind
      of resource, or a custom action that does not share a builtin's name. */
  ghost predicate Registered(tables: seq<Schema.Entry>, custom: seq<Schema.Entry>, action: string, ty: EntityType) {
    || (exists i :: 0 <= i < |tables| && action in CrudActions(tables[i].name))
    || (ty == Query && action == "run")
    || (ty == View && (action == "get" || action == "refresh"))
    || (!IsBuiltin(action) && exists i :: 0 <= i < |custom| && custom[i].name == action)
  }

  /** A whole check: the schema in use after a start and any number of syncs, policies from the
      documents, then the decision. No answer exactly when the service cannot start or two policies
      share an id. */
  method Check(unescape: string -> Option<string>, first: Registry, syncs: seq<Registry>, docs: seq<Document>,
               user: string, roleNames: seq<string>, action: string, path: string) returns (allow: Option<bool>)
    ensures allow.None? <==> !NamesOk(first.tables) || !IdsDistinct(AllPolicies(docs))
    ensures allow.Some? && PlainText(path) && PlainText(action)
            && (forall i :: 0 <= i < |roleNames| ==> PlainText(roleNames[i])) ==>
              (allow.value <==>
                 && Registered(InUse(first, syncs).tables, InUse(first, syncs).custom, action, EntityTypeOf(path))
                 && SomeCovers(docs, Allow, user, PlainSet(roleNames), action, path)
                 && !SomeCovers(docs, Deny, user, PlainSet(roleNames), action, path))
  {
    hide *;
    var cell := new SchemaCell();
    var started := cell.Rebuild(first);
    if !started { return None; }
    SyncAll(cell, first, syncs);
    var policies := LoadPolicies(docs);
    if policies.None? { return None; }
    var answer := Authorize(unescape, cell.lines, policies.value, user, roleNames, action, path);
    ghost var used := InUse(first, syncs);
    CheckMeans(cell.lines, used.tables, used.custom, docs, user, PlainSet(roleNames), action, path);
    allow := Some(answer);
  }

  /** A rebuild after every sync; the ones that fail change nothing. */
  method SyncAll(cell: SchemaCell, first: Registry, syncs: seq<Registry>)
    requires SchemaOf(first.tables, first.custom, cell.lines)
    modifies cell
    ensures SchemaOf(InUse(first, syncs).tables, InUse(first, syncs).custom, cell.lines)
  {
    hide SchemaOf, NamesOk;
    for i := 0 to |syncs|
      invariant SchemaOf(InUse(first, syncs[..i]).tables, InUse(first, syncs[..i]).custom, cell.lines)
    {
      assert syncs[..i + 1][..i] == syncs[..i];
      var _ := cell.Rebuild(syncs[i]);
    }
    assert syncs[..|syncs|] == syncs;
  }

  lemma CheckMeans(lines: seq<Decl>, tables: seq<Schema.Entry>, custom: seq<Schema.Entry>, docs: seq<Document>,
                   user: string, roles: set<string>, action: string, path: string)
    requires SchemaOf(tables, custom, lines)
    ensures Decision(lines, AllPolicies(docs), user, roles, action, path)
            <==> && Registered(tables, custom, action, EntityTypeOf(path))
                 && SomeCovers(docs, Allow, user, roles, action, path)
                 && !SomeCovers(docs, Deny, user, roles, action, path)
  {
    hide Decision, SomeCovers, DeclaredIn, Declared, Generated, AllPolicies, EntityTypeOf, CrudActions, IsBuiltin;
    DecisionMeans(lines, docs, user, roles, action, path);
    DeclaredInRegistry(lines, tables, custom, action, EntityTypeOf(path));
    DeclaredMeans(tables, custom, action, EntityTypeOf(path));
  }

  // ---------------------------------------------------------------- which sets of documents load

  /** The ids of a document's policies start with its own id. */
  lemma IdsStart(d: Document, id: string)
    requires id in PolicyIds.Ids(ForDocument(d))
    ensures |id| >= |d.id| && id[..|d.id|] == d.id
  {
    hide PolicyIds.Ids, ForStatement, IdsDistinct, PolicyId;
    PolicyIds.DistinctFlat(d.statements, s => ForStatement(d.id, s));
    var i :| 0 <= i < |d.statements| && id in PolicyIds.Ids(ForStatement(d.id, d.statements[i]));
    var s := d.statements[i];
    PolicyIds.StatementIds(d.id, s);
    var j: nat, k: nat :| PolicyIds.At(s, j, k) && id == PolicyIds.IdAt(d.id, s, j, k);
    IdStarts(d.id, s, s.actions[j], s.resources[k]);
  }

  lemma IdStarts(docId: string, s: Statement, action: string, resource: string)
    ensures var id := PolicyId(docId, s, action, resource); |id| >= |docId| && id[..|docId|] == docId
  {
  }

  /** Document ids are pairwise different and of one length, as UUIDs are. */
  predicate IdsLikeUuids(docs: seq<Document>) {
    forall i, j :: 0 <= i < j < |docs| ==> docs[i].id != docs[j].id && |docs[i].id| == |docs[j].id|
  }

  /** A tenant's documents load if and only if each of them compiles. */
  lemma LoadsIff(docs: seq<Document>)
    requires IdsLikeUuids(docs)
    ensures IdsDistinct(AllPolicies(docs)) <==> forall i :: 0 <= i < |docs| ==> PolicyIds.Compilable(docs[i])
  {
    hide IdsDistinct, ForDocument, PolicyIds.Compilable, PolicyIds.Ids;
    PolicyIds.DistinctFlat(docs, d => ForDocument(d));
    forall i | 0 <= i < |docs| ensures IdsDistinct(ForDocument(docs[i])) <==> PolicyIds.Compilable(docs[i]) {
      PolicyIds.CompilesIff(docs[i]);
    }
    forall i, j | 0 <= i < j < |docs| ensures PolicyIds.Ids(ForDocument(docs[i])) !! PolicyIds.Ids(ForDocument(docs[j])) {
      forall id | id in PolicyIds.Ids(ForDocument(docs[i])) && id in PolicyIds.Ids(ForDocument(docs[j])) ensures false {
        IdsStart(docs[i], id);
        IdsStart(docs[j], id);
      }
    }
  }

  /** One document that does not compile, such as one with a two-principal statement, makes every
      set of documents with it fail to load. */
  lemma OneFailsAll(docs: seq<Document>, i: nat)
    requires i < |docs| && !PolicyIds.Compilable(docs[i])
    ensures !IdsDistinct(AllPolicies(docs))
  {
    hide IdsDistinct, ForDocument, PolicyIds.Compilable, PolicyIds.Ids;
    PolicyIds.DistinctFlat(docs, d => ForDocument(d));
    PolicyIds.CompilesIff(docs[i]);
  }
}
