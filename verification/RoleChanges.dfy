/** What creating, re-parenting and deleting a role change: the rows, the ancestors and the roles a
    session carries. */
module RoleChanges {
  import opened Prelude
  import opened RsqlLanguage
  import opened RoleNames
  import opened Roles
  import opened EffectiveRoles
  import Rsql
  import RoleRace

  // ---------------------------------------------------------------- creation

  /** What a creation takes: a name, a uid free in the tenant, a parent of the tenant if one is given. */
  predicate MayCreate(t: Table, tenant: string, trimmed: string, parent: Option<Id>) {
    && trimmed != ""
    && (forall q :: q in t && t[q].tenant == tenant ==> t[q].uid != ToUid(trimmed))
    && (parent.Some? ==> parent.value in t && t[parent.value].tenant == tenant)
  }

  /** One new row, and every other row as it was. */
  predicate RowAdded(t: Table, t': Table, id: Id, row: Role) {
    && t'.Keys == t.Keys + {id} && t'[id] == row
    && forall q :: q in t && q != id ==> t'[q] == t[q]
  }

  /** Creation is accepted exactly then, and adds exactly the row asked for. */
  lemma CreateIff(t: Table, tenant: string, name: string, parent: Option<Id>, id: Id, trimmed: string)
    requires Forest(t) && id !in t && Trimmed(name, trimmed)
    ensures CreateSpec(t, tenant, name, parent, id).Ok? <==> MayCreate(t, tenant, trimmed, parent)
    ensures MayCreate(t, tenant, trimmed, parent) ==>
              RowAdded(t, CreateSpec(t, tenant, name, parent, id).value, id, Role(tenant, trimmed, ToUid(trimmed), parent))
  {
    hide ToUid, Forest, Trimmed;
    TrimmedIsTrim(name, trimmed);
  }

  /** A refusal names the first thing wrong. */
  lemma CreateError(t: Table, tenant: string, name: string, parent: Option<Id>, id: Id, trimmed: string)
    requires Forest(t) && id !in t && Trimmed(name, trimmed) && CreateSpec(t, tenant, name, parent, id).Err?
    ensures CreateSpec(t, tenant, name, parent, id).error
            == if trimmed == "" then NameRequired
               else if exists q :: q in t && t[q].tenant == tenant && t[q].uid == ToUid(trimmed) then UidTaken
               else ParentNotFound
  {
    hide ToUid, Forest, Trimmed;
    TrimmedIsTrim(name, trimmed);
  }

  function Under(parent: Option<Id>): set<Id> { if parent.Some? then {parent.value} else {} }

  ghost function AtOrAbove(t: Table, parent: Option<Id>): set<Id> {
    if parent.Some? then {parent.value} + Ancestors(t, parent.value) else {}
  }

  lemma {:induction false} NewRowWalk(t: Table, t': Table, id: Id, q: Id)
    requires EdgesOk(t) && id !in t && q in t && id in t' && t' == t[id := t'[id]]
    ensures Ancestors(t', q) == Ancestors(t, q)
  {
    forall n: nat ensures Up(t', q, n) == Up(t, q, n) && Up(t', q, n) != Some(id) {
      OldWalk(t, t', id, q, n);
    }
    assert forall x :: Reaches(t', q, x) <==> Reaches(t, q, x);
    assert !Reaches(t', q, id);
  }

  lemma AddedAncestors(t: Table, t': Table, id: Id, row: Role)
    requires Forest(t) && Forest(t') && id !in t && t' == t[id := row] && (row.parent.Some? ==> row.parent.value in t)
    ensures Ancestors(t', id) == AtOrAbove(t, row.parent)
    ensures forall q :: q in t ==> Ancestors(t', q) == Ancestors(t, q)
  {
    hide Acyclic, EdgesOk, Ancestors;
    forall q | q in t ensures Ancestors(t', q) == Ancestors(t, q) {
      NewRowWalk(t, t', id, q);
    }
    if row.parent.Some? {
      ParentStep(t', id);
    } else {
      RootHasNone(t', id);
    }
  }

  lemma RootHasNone(t: Table, r: Id)
    requires Parent(t, r) == None
    ensures Ancestors(t, r) == {}
  {
    forall n: nat | n > 0 ensures Up(t, r, n) == None {
    }
  }

  // ---------------------------------------------------------------- what a session carries

  /** The closure of held roles is the tenant's held roles and their ancestors. */
  lemma ClosureIs(t: Table, tenant: string, held: set<Id>, x: Id)
    requires Forest(t)
    ensures x in Closure(t, tenant, held) <==>
              InTenant(t, tenant, x) && exists r :: r in held && InTenant(t, tenant, r) && (x == r || x in Ancestors(t, r))
  {
    hide Acyclic, EdgesOk, Up;
    if x in Closure(t, tenant, held) {
      var r, n: nat :| r in Seeds(t, tenant, held) && Up(t, r, n) == Some(x);
      if n > 0 {
        assert Reaches(t, r, x);
      } else {
        UpNone(t, r);
      }
    }
    if r :| r in held && InTenant(t, tenant, r) && (x == r || x in Ancestors(t, r)) {
      if x == r {
        UpNone(t, r);
      }
      assert r in Seeds(t, tenant, held);
      if InTenant(t, tenant, x) {
        assert FromSeed(t, tenant, held, x);
      }
    }
  }

  lemma UpNone(t: Table, r: Id)
    ensures Up(t, r, 0) == Some(r)
  {
  }

  lemma AddedCarries(t: Table, t': Table, id: Id, row: Role, held: set<Id>)
    requires Forest(t) && Forest(t') && id !in t && t' == t[id := row] && id !in held
    requires row.parent.Some? ==> InTenant(t, row.tenant, row.parent.value)
    ensures Closure(t', row.tenant, held + {id})
            == Closure(t, row.tenant, held) + {id} + Closure(t, row.tenant, Under(row.parent))
  {
    hide Forest, Closure, Ancestors;
    AddedAncestors(t, t', id, row);
    forall x
      ensures x in Closure(t', row.tenant, held + {id})
              <==> x in Closure(t, row.tenant, held) || x == id || x in Closure(t, row.tenant, Under(row.parent))
    {
      ClosureIs(t', row.tenant, held + {id}, x);
      ClosureIs(t, row.tenant, held, x);
      ClosureIs(t, row.tenant, Under(row.parent), x);
      KnownOnly(t, id);
    }
  }

  lemma KnownOnly(t: Table, id: Id)
    requires id !in t
    ensures forall q :: id !in Ancestors(t, q)
  {
  }

  /** The ancestors of a created role are its parent and the parent's ancestors, and no other role's
      change. A session holding the new role carries it and everything the parent carries, besides
      what its other roles carried before. */
  lemma CreateInherits(t: Table, tenant: string, name: string, parent: Option<Id>, id: Id, held: set<Id>)
    requires Forest(t) && UidsUnique(t) && id !in t && id !in held && CreateSpec(t, tenant, name, parent, id).Ok?
    ensures var t' := CreateSpec(t, tenant, name, parent, id).value;
            && Ancestors(t', id) == AtOrAbove(t, parent)
            && (forall q :: q in t ==> Ancestors(t', q) == Ancestors(t, q))
            && Closure(t', tenant, held + {id}) == Closure(t, tenant, held) + {id} + Closure(t, tenant, Under(parent))
  {
    var t' := CreateSpec(t, tenant, name, parent, id).value;
    CreateKeeps(t, tenant, name, parent, id);
    hide Forest, UidsUnique, Closure, Ancestors, ToUid, Rsql.Trim;
    AddedAncestors(t, t', id, t'[id]);
    AddedCarries(t, t', id, t'[id], held);
  }

  // ---------------------------------------------------------------- a new parent, a deletion

  /** A change of parent is refused, with the first reason that applies, or changes that one column. */
  lemma SetParentIs(t: Table, tenant: string, r: Id, parent: Option<Id>)
    requires Forest(t)
    ensures match SetParentSpec(t, tenant, r, parent)
            case Ok(t') =>
              && InTenant(t, tenant, r) && t'.Keys == t.Keys && t'[r] == Role(t[r].tenant, t[r].name, t[r].uid, parent)
              && (forall q :: q in t && q != r ==> t'[q] == t[q])
              && (parent.Some? ==> InTenant(t, tenant, parent.value) && parent.value != r && r !in Ancestors(t, parent.value))
            case Err(e) =>
              if !InTenant(t, tenant, r) then e == RoleNotFound
              else
                && parent.Some?
                && e == if !InTenant(t, tenant, parent.value) then ParentNotFound
                        else if parent.value == r then OwnParent else WouldCycle
  {
    hide Acyclic, EdgesOk, Reaches, Chain;
    if parent.Some? && parent.value in t {
      ChainFacts(t, parent.value);
      assert r in Chain(t, parent.value) <==> r in Elements(Chain(t, parent.value));
    }
  }

  /** Under its new parent a role has that parent and the parent's ancestors, all as they were. */
  lemma SetParentInherits(t: Table, tenant: string, r: Id, parent: Option<Id>)
    requires Forest(t) && UidsUnique(t) && SetParentSpec(t, tenant, r, parent).Ok?
    ensures Ancestors(SetParentSpec(t, tenant, r, parent).value, r) == AtOrAbove(t, parent)
  {
    var t' := SetParentSpec(t, tenant, r, parent).value;
    SetParentKeeps(t, tenant, r, parent);
    SetParentIs(t, tenant, r, parent);
    hide Acyclic, EdgesOk, UidsUnique, SetParentSpec, Ancestors;
    if parent.Some? {
      ParentStep(t', r);
      AboveUnchanged(t, r, parent, parent.value);
      assert t' == WithParent(t, r, parent);
    } else {
      RootHasNone(t', r);
    }
  }

  lemma AboveUnchanged(t: Table, r: Id, parent: Option<Id>, x: Id)
    requires r in t && x != r && x in t && r !in Ancestors(t, x)
    ensures Ancestors(WithParent(t, r, parent), x) == Ancestors(t, x)
  {
    assert !Reaches(t, x, r);
    forall k: nat ensures Up(t, x, k) != Some(r) {
      assert k > 0 && Up(t, x, k) == Some(r) ==> Reaches(t, x, r);
    }
    forall n: nat ensures Up(WithParent(t, r, parent), x, n) == Up(t, x, n) {
      WalkUnchanged(t, r, parent, x, n);
    }
    assert forall y :: Reaches(WithParent(t, r, parent), x, y) <==> Reaches(t, x, y);
  }

  /** Deletion removes a role of the tenant, makes its children roots and leaves every other row;
      a role of another tenant stays. */
  lemma DeleteIs(t: Table, tenant: string, r: Id)
    ensures var t' := DeleteSpec(t, tenant, r);
            && (!InTenant(t, tenant, r) ==> t' == t)
            && (InTenant(t, tenant, r) ==>
                  && t'.Keys == t.Keys - {r}
                  && forall q :: q in t' ==>
                       t'[q] == if t[q].parent == Some(r) then Role(t[q].tenant, t[q].name, t[q].uid, None) else t[q])
  {
  }

  // ---------------------------------------------------------------- the list of ancestors

  lemma {:induction false} ReversedAt<T>(s: seq<T>)
    ensures |Reverse(s)| == |s| && forall i :: 0 <= i < |s| ==> Reverse(s)[i] == s[|s| - 1 - i]
  {
    if s != [] {
      ReversedAt(s[1..]);
    }
  }

  lemma NearestFirst(t: Table, r: Id)
    requires Forest(t) && r in t && Chain(t, r) != []
    ensures Parent(t, r) == Some(Chain(t, r)[0])
  {
    hide Acyclic, EdgesOk, Ancestors;
  }

  /** The list of ancestors starts at a root, each entry is the parent of the next, and the last is
      the role's own parent; it shows each ancestor once. */
  lemma AncestorsRootFirst(t: Table, r: Id)
    requires Forest(t) && r in t
    ensures var list := Reverse(Chain(t, r));
            && Distinct(list) && (forall x :: x in list <==> x in Ancestors(t, r))
            && (list != [] ==> Parent(t, list[0]) == None && Parent(t, r) == Some(list[|list| - 1]))
            && (list == [] ==> Parent(t, r) == None)
            && forall i :: 0 < i < |list| ==> Parent(t, list[i]) == Some(list[i - 1])
  {
    hide Acyclic, EdgesOk, Ancestors, Chain, Reverse;
    var c := Chain(t, r);
    ChainFacts(t, r);
    ReversedAt(c);
    var list := Reverse(c);
    forall x ensures x in list <==> x in c {
      if x in list {
        var i :| 0 <= i < |list| && list[i] == x;
        assert c[|c| - 1 - i] == x;
      }
      if x in c {
        var i :| 0 <= i < |c| && c[i] == x;
        assert list[|c| - 1 - i] == x;
      }
    }
    assert forall x :: x in c <==> x in Elements(c);
    assert Distinct(list) by {
      forall i, j | 0 <= i < j < |list| ensures list[i] != list[j] {
        assert c[|c| - 1 - j] != c[|c| - 1 - i];
      }
    }
    if c != [] {
      assert list[0] == c[|c| - 1] && list[|c| - 1] == c[0];
      NearestFirst(t, r);
    }
    forall i | 0 < i < |list| ensures Parent(t, list[i]) == Some(list[i - 1]) {
      assert list[i] == c[|c| - 1 - i] && list[i - 1] == c[|c| - i];
    }
  }

  // ---------------------------------------------------------------- statement by statement

  /** The statements of one request, run with nothing between them. */
  ghost function Alone(s: RoleRace.State, req: RoleRace.Req, id: Id, n: nat): RoleRace.State
    decreases n
  {
    if n == 0 then s else Alone(RoleRace.Next(s, RoleRace.Run(req, id)), req, id, n - 1)
  }

  /** Alone, the four statements of a change of parent do what the whole request does. */
  lemma SetParentAlone(s: RoleRace.State, req: RoleRace.Req, tenant: string, r: Id, p: Id, id: Id)
    requires Forest(s.t) && req in s.tasks && s.tasks[req] == RoleRace.FindRole(tenant, r, p)
    ensures var after := Alone(s, req, id, 4);
            && after.tasks == s.tasks[req := RoleRace.Done] && after.used == s.used
            && after.t == match SetParentSpec(s.t, tenant, r, Some(p)) case Ok(t') => t' case Err(_) => s.t
  {
    hide Acyclic, EdgesOk, ReachesOrIs, Chain;
    if InTenant(s.t, tenant, p) {
      InChainIffReaches(s.t, p, r);
      ReachesOr(s.t, p, r);
    }
    var a := RoleRace.Run(req, id);
    var s1 := RoleRace.Next(s, a);
    var s2 := RoleRace.Next(s1, a);
    var s3 := RoleRace.Next(s2, a);
    assert Alone(s, req, id, 4) == RoleRace.Next(s3, a);
  }

  lemma ReachesOr(t: Table, p: Id, r: Id)
    ensures ReachesOrIs(t, p, r) <==> p == r || Reaches(t, p, r)
  {
    UpNone(t, p);
    if ReachesOrIs(t, p, r) {
      var n: nat :| Up(t, p, n) == Some(r);
    }
  }

  /** Alone, the three statements of a creation do what the whole request does, for an id not used
      before. */
  lemma CreateAlone(s: RoleRace.State, req: RoleRace.Req, tenant: string, name: string, parent: Option<Id>, id: Id)
    requires Forest(s.t) && req in s.tasks && s.tasks[req] == RoleRace.FindUid(tenant, name, parent)
    requires s.t.Keys <= s.used && id !in s.used
    ensures var after := Alone(s, req, id, 3);
            && after.tasks == s.tasks[req := RoleRace.Done]
            && after.t == match CreateSpec(s.t, tenant, name, parent, id) case Ok(t') => t' case Err(_) => s.t
  {
    hide Acyclic, EdgesOk, ToUid, Rsql.Trim;
    var a := RoleRace.Run(req, id);
    var s1 := RoleRace.Next(s, a);
    var s2 := RoleRace.Next(s1, a);
    assert Alone(s, req, id, 3) == RoleRace.Next(s2, a);
  }

  /** In any interleaving the INSERT adds the row asked for, with its parent, or nothing; and as long
      as the table is a forest the new role has the parent's ancestors and carries what it carries. */
  lemma InsertIs(s: RoleRace.State, req: RoleRace.Req, id: Id, trimmed: string)
    requires req in s.tasks && s.tasks[req].Insert? && Trimmed(s.tasks[req].name, trimmed) && s.t.Keys <= s.used
    ensures var i := s.tasks[req]; var t' := RoleRace.Next(s, RoleRace.Run(req, id)).t;
            if id in s.used || UidUsed(s.t, i.tenant, ToUid(trimmed)) || (i.under.Some? && i.under.value !in s.t) then t' == s.t
            else RowAdded(s.t, t', id, Role(i.tenant, trimmed, ToUid(trimmed), i.under))
  {
    hide ToUid, Trimmed;
    TrimmedIsTrim(s.tasks[req].name, trimmed);
  }

  lemma InsertInherits(s: RoleRace.State, req: RoleRace.Req, id: Id, held: set<Id>)
    requires RoleRace.Inv(s) && req in s.tasks && s.tasks[req].Insert? && id !in s.used && id !in held
    requires id in RoleRace.Next(s, RoleRace.Run(req, id)).t
    ensures var i := s.tasks[req]; var t' := RoleRace.Next(s, RoleRace.Run(req, id)).t;
            && Ancestors(t', id) == AtOrAbove(s.t, i.under)
            && Closure(t', i.tenant, held + {id}) == Closure(s.t, i.tenant, held) + {id} + Closure(s.t, i.tenant, Under(i.under))
  {
    RoleRace.InsertKeeps(s, req, id);
    var i := s.tasks[req];
    var t' := RoleRace.Next(s, RoleRace.Run(req, id)).t;
    assert RoleRace.TaskOk(s, i);
    hide Acyclic, EdgesOk, Closure, Ancestors, ToUid, Rsql.Trim, ReachesOrIs, UidUsed;
    AddedAncestors(s.t, t', id, t'[id]);
    AddedCarries(s.t, t', id, t'[id], held);
  }
}
