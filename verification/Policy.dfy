/** The permission compiler and the authorizer (`src/policy/compiler.rs`, `src/policy/engine.rs`)
    against a direct reading of the documents, for documents without conditions. */
module Policy {
  import opened Prelude
  import opened Resource

  datatype Effect = Allow | Deny

  datatype Statement = Statement(sid: string, effect: Effect, principals: seq<string>, actions: seq<string>, resources: seq<string>)

  /** A stored document and its database id. */
  datatype Document = Document(id: string, statements: seq<Statement>)

  // ---------------------------------------------------------------- the Cedar fragment

  datatype PrincipalScope = AnyPrincipal | IsUser(id: string) | InRole(id: string)

  datatype ResourceScope = AnyResource | Exactly(uid: Uid)

  /** A policy: scopes, and for wildcard resources a `when { resource.path like … }` condition. */
  datatype CedarPolicy = CedarPolicy(
    id: string, permit: bool, principal: PrincipalScope, action: string, resource: ResourceScope, like: Option<seq<Elem>>)

  /** The request as Cedar sees it: the entities hold the resource's path and the user's roles, or
      nothing if they were refused by the schema. */
  datatype Request = Request(user: string, action: string, resource: Uid, roles: set<string>, paths: map<Uid, string>)

  predicate Satisfied(p: CedarPolicy, r: Request) {
    && (match p.principal
        case AnyPrincipal => true
        case IsUser(id) => id == r.user
        case InRole(id) => id in r.roles)
    && p.action == r.action
    && (p.resource.Exactly? ==> p.resource.uid == r.resource)
    && (p.like.Some? ==> r.resource in r.paths && Matches(p.like.value, r.paths[r.resource]))
  }

  /** Some permit and no forbid. */
  predicate Permitted(ps: seq<CedarPolicy>, r: Request) {
    && (exists i :: 0 <= i < |ps| && ps[i].permit && Satisfied(ps[i], r))
    && (forall i :: 0 <= i < |ps| && !ps[i].permit ==> !Satisfied(ps[i], r))
  }

  // ---------------------------------------------------------------- the compiler

  function ParsePrincipal(p: string): PrincipalScope {
    if p == "*" then AnyPrincipal
    else
      match SplitOnce(p)
      case None => IsUser(p)
      case Some((prefix, id)) => if prefix == "role" then InRole(id) else IsUser(id)
  }

  function ParseResource(r: string): ResourceScope {
    if IsWildcard(r) then AnyResource else Exactly(ResourceUid(r))
  }

  function LikeOf(r: string): Option<seq<Elem>> {
    if IsWildcard(r) && r != "*" then Some(Pattern(Split(r, '*'))) else None
  }

  function PolicyId(docId: string, s: Statement, action: string, resource: string): string {
    docId + "-" + s.sid + "-" + action + "-" + resource
  }

  function PolicyOf(docId: string, s: Statement, principal: string, action: string, resource: string): CedarPolicy {
    CedarPolicy(PolicyId(docId, s, action, resource), s.effect == Allow, ParsePrincipal(principal), action,
                ParseResource(resource), LikeOf(resource))
  }

  function ForAction(docId: string, s: Statement, principal: string, action: string): seq<CedarPolicy> {
    seq(|s.resources|, i requires 0 <= i < |s.resources| => PolicyOf(docId, s, principal, action, s.resources[i]))
  }

  function ForPrincipal(docId: string, s: Statement, principal: string): seq<CedarPolicy> {
    FlatMap(s.actions, a => ForAction(docId, s, principal, a))
  }

  function ForStatement(docId: string, s: Statement): seq<CedarPolicy> {
    FlatMap(s.principals, p => ForPrincipal(docId, s, p))
  }

  /** One policy per statement, principal, action and resource. */
  function ForDocument(d: Document): seq<CedarPolicy> { FlatMap(d.statements, s => ForStatement(d.id, s)) }

  predicate IdsDistinct(ps: seq<CedarPolicy>) { forall i, j :: 0 <= i < j < |ps| ==> ps[i].id != ps[j].id }

  predicate IdIn(ps: seq<CedarPolicy>, id: string) { exists i :: 0 <= i < |ps| && ps[i].id == id }

  /** A repeated id in a prefix is a repeated id in the whole. */
  lemma RepeatStays(part: seq<CedarPolicy>, p: CedarPolicy, whole: seq<CedarPolicy>)
    requires IdIn(part, p.id) && part + [p] <= whole
    ensures !IdsDistinct(whole)
  {
    var i :| 0 <= i < |part| && part[i].id == p.id;
    assert whole[i] == part[i] && whole[|part|] == p;
  }

  /** The innermost loop: one policy per resource, refused when its id is taken. */
  method AddResources(docId: string, s: Statement, principal: string, action: string, start: seq<CedarPolicy>)
    returns (set': Option<seq<CedarPolicy>>)
    requires IdsDistinct(start)
    ensures set'.Some? <==> IdsDistinct(start + ForAction(docId, s, principal, action))
    ensures set'.Some? ==> set'.value == start + ForAction(docId, s, principal, action)
  {
    hide PolicyOf;
    ghost var all := ForAction(docId, s, principal, action);
    var ps := start;
    for i := 0 to |s.resources|
      invariant ps == start + all[..i] && IdsDistinct(ps)
    {
      var p := PolicyOf(docId, s, principal, action, s.resources[i]);
      assert start + all[..i + 1] == start + all[..i] + [p];
      if IdIn(ps, p.id) {
        assert start + all[..i + 1] <= start + all;
        RepeatStays(ps, p, start + all);
        return None;
      }
      ps := ps + [p];
    }
    assert all[..|all|] == all;
    set' := Some(ps);
  }

  /** `compile`: fails exactly when two of the document's policies would share an id. */
  method Compile(d: Document) returns (set': Option<seq<CedarPolicy>>)
    ensures set'.Some? <==> IdsDistinct(ForDocument(d))
    ensures set'.Some? ==> set'.value == ForDocument(d)
  {
    hide ForAction, IdIn;
    var ps: seq<CedarPolicy> := [];
    for i := 0 to |d.statements|
      invariant ps == FlatMap(d.statements[..i], s => ForStatement(d.id, s)) && IdsDistinct(ps)
    {
      var r := AddStatement(d.id, d.statements[i], ps);
      FlatMapPrefix(d.statements, s => ForStatement(d.id, s), i, ForStatement(d.id, d.statements[i]));
      FlatMapNext(d.statements, s => ForStatement(d.id, s), i);
      if r.None? {
        assert !IdsDistinct(ForDocument(d)) by {
          PrefixDistinct(ps + ForStatement(d.id, d.statements[i]), ForDocument(d));
        }
        return None;
      }
      ps := r.value;
    }
    assert d.statements[..|d.statements|] == d.statements;
    set' := Some(ps);
  }

  lemma PrefixDistinct(part: seq<CedarPolicy>, whole: seq<CedarPolicy>)
    requires part <= whole
    ensures IdsDistinct(whole) ==> IdsDistinct(part)
  {
  }

  method AddStatement(docId: string, s: Statement, start: seq<CedarPolicy>) returns (set': Option<seq<CedarPolicy>>)
    requires IdsDistinct(start)
    ensures set'.Some? <==> IdsDistinct(start + ForStatement(docId, s))
    ensures set'.Some? ==> set'.value == start + ForStatement(docId, s)
  {
    hide ForAction, ForPrincipal, IdsDistinct;
    var ps := start;
    AppendNil(start);
    for i := 0 to |s.principals|
      invariant ps == start + FlatMap(s.principals[..i], p => ForPrincipal(docId, s, p)) && IdsDistinct(ps)
    {
      var before := FlatMap(s.principals[..i], p => ForPrincipal(docId, s, p));
      var r := AddPrincipal(docId, s, s.principals[i], ps);
      FlatMapPrefix(s.principals, p => ForPrincipal(docId, s, p), i, ForPrincipal(docId, s, s.principals[i]));
      FlatMapNext(s.principals, p => ForPrincipal(docId, s, p), i);
      Assoc(start, before, ForPrincipal(docId, s, s.principals[i]));
      if r.None? {
        PrefixDistinct(start + (before + ForPrincipal(docId, s, s.principals[i])), start + ForStatement(docId, s));
        return None;
      }
      ps := r.value;
    }
    assert s.principals[..|s.principals|] == s.principals;
    set' := Some(ps);
  }

  method AddPrincipal(docId: string, s: Statement, principal: string, start: seq<CedarPolicy>)
    returns (set': Option<seq<CedarPolicy>>)
    requires IdsDistinct(start)
    ensures set'.Some? <==> IdsDistinct(start + ForPrincipal(docId, s, principal))
    ensures set'.Some? ==> set'.value == start + ForPrincipal(docId, s, principal)
  {
    hide ForAction, IdsDistinct;
    var ps := start;
    AppendNil(start);
    for i := 0 to |s.actions|
      invariant ps == start + FlatMap(s.actions[..i], a => ForAction(docId, s, principal, a)) && IdsDistinct(ps)
    {
      var before := FlatMap(s.actions[..i], a => ForAction(docId, s, principal, a));
      var r := AddResources(docId, s, principal, s.actions[i], ps);
      FlatMapPrefix(s.actions, a => ForAction(docId, s, principal, a), i, ForAction(docId, s, principal, s.actions[i]));
      FlatMapNext(s.actions, a => ForAction(docId, s, principal, a), i);
      Assoc(start, before, ForAction(docId, s, principal, s.actions[i]));
      if r.None? {
        PrefixDistinct(start + (before + ForAction(docId, s, principal, s.actions[i])), start + ForPrincipal(docId, s, principal));
        return None;
      }
      ps := r.value;
    }
    assert s.actions[..|s.actions|] == s.actions;
    set' := Some(ps);
  }

  // ---------------------------------------------------------------- counting

  function Count(ss: seq<Statement>): nat {
    if ss == [] then 0
    else Count(ss[..|ss| - 1]) + (var s := ss[|ss| - 1]; |s.principals| * |s.actions| * |s.resources|)
  }

  lemma {:induction false} FlatMapLength<A, B>(xs: seq<A>, f: A -> seq<B>, n: nat)
    requires forall i :: 0 <= i < |xs| ==> |f(xs[i])| == n
    ensures |FlatMap(xs, f)| == |xs| * n
  {
    if xs != [] {
      FlatMapLength(xs[..|xs| - 1], f, n);
      assert (|xs| - 1) * n + n == |xs| * n;
    }
  }

  lemma StatementLength(docId: string, s: Statement)
    ensures |ForStatement(docId, s)| == |s.principals| * |s.actions| * |s.resources|
  {
    hide PolicyOf;
    forall p ensures |ForPrincipal(docId, s, p)| == |s.actions| * |s.resources| {
      FlatMapLength(s.actions, a => ForAction(docId, s, p, a), |s.resources|);
    }
    FlatMapLength(s.principals, p => ForPrincipal(docId, s, p), |s.actions| * |s.resources|);
    assert |s.principals| * (|s.actions| * |s.resources|) == |s.principals| * |s.actions| * |s.resources|;
  }

  /** A compiled document has the sum over its statements of principals times actions times
      resources policies. */
  lemma {:induction false} DocumentLength(docId: string, ss: seq<Statement>)
    ensures |FlatMap(ss, s => ForStatement(docId, s))| == Count(ss)
    decreases |ss|
  {
    hide ForStatement;
    if ss != [] {
      DocumentLength(docId, ss[..|ss| - 1]);
      StatementLength(docId, ss[|ss| - 1]);
    }
  }
}
