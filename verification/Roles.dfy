/** The role table of `src/repo/roles.rs`: a forest inside each tenant, kept by every operation. */
module Roles {
  import opened Prelude
  import opened RoleNames
  import Rsql

  /** Stands for a UUID. */
  type Id = int

  datatype Role = Role(tenant: string, name: string, uid: string, parent: Option<Id>)

  type Table = map<Id, Role>

  datatype RoleError = RoleNotFound | ParentNotFound | OwnParent | WouldCycle | UidTaken | NameRequired

  predicate InTenant(t: Table, tenant: string, r: Id) { r in t && t[r].tenant == tenant }

  function Parent(t: Table, r: Id): Option<Id> { if r in t then t[r].parent else None }

  /** The role reached from `r` by `n` parent steps. */
  function Up(t: Table, r: Id, n: nat): Option<Id>
    decreases n
  {
    if n == 0 then Some(r) else match Parent(t, r) case None => None case Some(p) => Up(t, p, n - 1)
  }

  ghost predicate Reaches(t: Table, r: Id, x: Id) { exists n: nat :: n > 0 && Up(t, r, n) == Some(x) }

  ghost predicate Acyclic(t: Table) { forall r, n: nat :: n > 0 ==> Up(t, r, n) != Some(r) }

  /** Parents exist (the foreign key) and belong to the same tenant. */
  predicate EdgesOk(t: Table) {
    forall r :: r in t && t[r].parent.Some? ==> InTenant(t, t[r].tenant, t[r].parent.value)
  }

  predicate UidsUnique(t: Table) {
    forall r, q :: r in t && q in t && t[r].tenant == t[q].tenant && t[r].uid == t[q].uid ==> r == q
  }

  ghost predicate Forest(t: Table) { EdgesOk(t) && Acyclic(t) }

  // ---------------------------------------------------------------- walking up

  lemma {:induction false} UpAdd(t: Table, r: Id, m: nat, n: nat)
    ensures Up(t, r, m + n) == match Up(t, r, m) case None => None case Some(x) => Up(t, x, n)
    decreases m
  {
    if m > 0 && Parent(t, r).Some? {
      UpAdd(t, Parent(t, r).value, m - 1, n);
      assert Up(t, r, m + n) == Up(t, Parent(t, r).value, m - 1 + n);
    }
  }

  lemma {:induction false} UpInTenant(t: Table, r: Id, n: nat)
    requires EdgesOk(t) && r in t && Up(t, r, n).Some?
    ensures InTenant(t, t[r].tenant, Up(t, r, n).value)
    decreases n
  {
    if n > 0 {
      UpInTenant(t, t[r].parent.value, n - 1);
    }
  }

  ghost function Ancestors(t: Table, r: Id): set<Id> { set x | x in t.Keys && Reaches(t, r, x) }

  lemma ParentStep(t: Table, r: Id)
    requires Forest(t) && r in t && t[r].parent.Some?
    ensures var p := t[r].parent.value;
            p in t && Ancestors(t, r) == {p} + Ancestors(t, p) && p !in Ancestors(t, p)
    ensures r !in Ancestors(t, r)
  {
    var p := t[r].parent.value;
    assert Up(t, r, 1) == Some(p) by { assert Up(t, p, 0) == Some(p); }
    forall x | Reaches(t, p, x) ensures Reaches(t, r, x) {
      var n: nat :| n > 0 && Up(t, p, n) == Some(x);
      assert Up(t, r, n + 1) == Some(x);
    }
    forall x | Reaches(t, r, x) && x != p ensures Reaches(t, p, x) {
      var n: nat :| n > 0 && Up(t, r, n) == Some(x);
      assert Up(t, p, n - 1) == Some(x);
      assert n - 1 > 0;
    }
  }

  /** The ancestors of a role, nearest first. */
  ghost function Chain(t: Table, r: Id): (c: seq<Id>)
    requires Forest(t) && r in t
    decreases Ancestors(t, r)
  {
    match t[r].parent
    case None => []
    case Some(p) => ParentStep(t, r); [p] + Chain(t, p)
  }

  predicate Distinct<T(==)>(s: seq<T>) { forall i, j :: 0 <= i < j < |s| ==> s[i] != s[j] }

  function Elements<T>(s: seq<T>): set<T> { set x | x in s }

  /** The chain is exactly the ancestors, without repeats, each the parent of the one before it,
      ending at a root and inside one tenant. */
  lemma {:induction false} ChainFacts(t: Table, r: Id)
    requires Forest(t) && r in t
    ensures Elements(Chain(t, r)) == Ancestors(t, r) && Distinct(Chain(t, r)) && r !in Chain(t, r)
    ensures forall i :: 0 <= i < |Chain(t, r)| ==>
              InTenant(t, t[r].tenant, Chain(t, r)[i])
              && Parent(t, if i == 0 then r else Chain(t, r)[i - 1]) == Some(Chain(t, r)[i])
    ensures Parent(t, if Chain(t, r) == [] then r else Chain(t, r)[|Chain(t, r)| - 1]) == None
    decreases Ancestors(t, r)
  {
    match t[r].parent
    case None =>
      assert forall n: nat :: n > 0 ==> Up(t, r, n) == None;
    case Some(p) =>
      ParentStep(t, r);
      ChainFacts(t, p);
      var c := Chain(t, p);
      assert Chain(t, r) == [p] + c;
      assert Elements([p] + c) == {p} + Elements(c);
      assert forall x :: x in c ==> x in Elements(c);
      assert forall x :: x in Chain(t, r) ==> x in Elements(Chain(t, r));
  }

  // ---------------------------------------------------------------- what the operations compute

  /** `validate_parent`, with the child it is checked for if there is one. */
  ghost function CheckParent(t: Table, tenant: string, parent: Id, child: Option<Id>): Option<RoleError>
    requires Forest(t)
  {
    if !InTenant(t, tenant, parent) then Some(ParentNotFound)
    else if child.None? then None
    else if parent == child.value then Some(OwnParent)
    else if child.value in Chain(t, parent) then Some(WouldCycle)
    else None
  }

  function WithParent(t: Table, r: Id, parent: Option<Id>): Table
    requires r in t
  {
    t[r := t[r].(parent := parent)]
  }

  ghost function SetParentSpec(t: Table, tenant: string, r: Id, parent: Option<Id>): Result<Table, RoleError>
    requires Forest(t)
  {
    if !InTenant(t, tenant, r) then Err(RoleNotFound)
    else if parent.Some? && CheckParent(t, tenant, parent.value, Some(r)).Some? then
      Err(CheckParent(t, tenant, parent.value, Some(r)).value)
    else Ok(WithParent(t, r, parent))
  }

  /** Deleting a role makes its children roots (`ON DELETE SET NULL`). */
  function Deleted(t: Table, r: Id): Table {
    map q | q in t && q != r :: if t[q].parent == Some(r) then t[q].(parent := None) else t[q]
  }

  function DeleteSpec(t: Table, tenant: string, r: Id): Table {
    if InTenant(t, tenant, r) then Deleted(t, r) else t
  }

  predicate UidUsed(t: Table, tenant: string, uid: string) {
    exists r :: r in t && t[r].tenant == tenant && t[r].uid == uid
  }

  ghost function CreateSpec(t: Table, tenant: string, name: string, parent: Option<Id>, id: Id):
    Result<Table, RoleError>
    requires Forest(t)
  {
    var trimmed := Rsql.Trim(name);
    if trimmed == "" then Err(NameRequired)
    else if UidUsed(t, tenant, ToUid(trimmed)) then Err(UidTaken)
    else if parent.Some? && CheckParent(t, tenant, parent.value, None).Some? then Err(ParentNotFound)
    else Ok(t[id := Role(tenant, trimmed, ToUid(trimmed), parent)])
  }

  // ---------------------------------------------------------------- exactness of set_parent

  /** Changing the parent of `r` does not change a walk that has not met `r` yet. */
  lemma {:induction false} WalkUnchanged(t: Table, r: Id, parent: Option<Id>, x: Id, n: nat)
    requires r in t && forall k: nat :: k < n ==> Up(t, x, k) != Some(r)
    ensures Up(WithParent(t, r, parent), x, n) == Up(t, x, n)
    decreases n
  {
    if n > 0 {
      assert Up(t, x, 0) == Some(x);
      assert Parent(WithParent(t, r, parent), x) == Parent(t, x);
      if Parent(t, x).Some? {
        var y := Parent(t, x).value;
        forall k: nat | k < n - 1 ensures Up(t, y, k) != Some(r) {
          assert Up(t, x, k + 1) == Up(t, y, k);
        }
        WalkUnchanged(t, r, parent, y, n - 1);
      }
    }
  }

  /** The first time a walk meets `r`. */
  lemma FirstVisit(t: Table, x: Id, r: Id, n: nat) returns (m: nat)
    requires Up(t, x, n) == Some(r)
    ensures m <= n && Up(t, x, m) == Some(r) && forall k: nat :: k < m ==> Up(t, x, k) != Some(r)
  {
    m := 0;
    while Up(t, x, m) != Some(r)
      invariant m <= n && forall k: nat :: k < m ==> Up(t, x, k) != Some(r)
      decreases n - m
    {
      m := m + 1;
    }
  }

  ghost predicate ReachesOrIs(t: Table, x: Id, r: Id) { exists n: nat :: Up(t, x, n) == Some(r) }

  /** Re-parenting `r` under `p` closes a cycle exactly when `r` is already at or above `p`. */
  lemma CycleIffAbove(t: Table, r: Id, p: Id)
    requires Acyclic(t) && r in t
    ensures Acyclic(WithParent(t, r, Some(p))) <==> !ReachesOrIs(t, p, r)
  {
    var t' := WithParent(t, r, Some(p));
    assert Parent(t', r) == Some(p);
    if ReachesOrIs(t, p, r) {
      var n: nat :| Up(t, p, n) == Some(r);
      var m := FirstVisit(t, p, r, n);
      WalkUnchanged(t, r, Some(p), p, m);
      assert Up(t', r, m + 1) == Some(r);
    } else {
      forall x, n: nat | n > 0 ensures Up(t', x, n) != Some(x) {
        if Up(t', x, n) == Some(x) {
          NoNewCycle(t, r, p, x, n);
        }
      }
    }
  }

  lemma NoNewCycle(t: Table, r: Id, p: Id, x: Id, n: nat)
    requires Acyclic(t) && r in t && n > 0 && Up(WithParent(t, r, Some(p)), x, n) == Some(x)
    ensures ReachesOrIs(t, p, r)
  {
    var t' := WithParent(t, r, Some(p));
    if k: nat :| k < n && Up(t, x, k) == Some(r) {
      var k0 := FirstVisit(t, x, r, k);
      WalkUnchanged(t, r, Some(p), x, k0);
      // The cycle passes through r, so it can be walked from r.
      UpAdd(t', x, k0, n);
      UpAdd(t', x, n, k0);
      assert Up(t', r, n) == Some(r);
      assert Up(t', p, n - 1) == Some(r) by { assert Parent(t', r) == Some(p); }
      var m := FirstVisit(t', p, r, n - 1);
      assert r in t' && WithParent(t', r, t[r].parent) == t;
      WalkUnchanged(t', r, t[r].parent, p, m);
    } else {
      WalkUnchanged(t, r, Some(p), x, n);
      assert false;
    }
  }

  lemma InChainIffReaches(t: Table, p: Id, r: Id)
    requires Forest(t) && p in t
    ensures r in Chain(t, p) <==> Reaches(t, p, r)
  {
    ChainFacts(t, p);
    assert r in Chain(t, p) <==> r in Elements(Chain(t, p));
    if Reaches(t, p, r) {
      var n: nat :| n > 0 && Up(t, p, n) == Some(r);
      UpInTenant(t, p, n);
    }
  }

  /** For roles of the tenant, `set_parent` accepts exactly the changes that keep the table
      acyclic. */
  lemma SetParentExact(t: Table, tenant: string, r: Id, p: Id)
    requires Forest(t) && InTenant(t, tenant, r) && InTenant(t, tenant, p)
    ensures SetParentSpec(t, tenant, r, Some(p)).Ok? <==> Acyclic(WithParent(t, r, Some(p)))
  {
    hide Acyclic;
    CycleIffAbove(t, r, p);
    InChainIffReaches(t, p, r);
    if p == r {
      assert Up(t, p, 0) == Some(r);
    } else if ReachesOrIs(t, p, r) {
      var n: nat :| Up(t, p, n) == Some(r);
      assert n > 0;
    }
  }

  // ---------------------------------------------------------------- every operation keeps the forest

  lemma SetParentKeeps(t: Table, tenant: string, r: Id, parent: Option<Id>)
    requires Forest(t) && UidsUnique(t) && SetParentSpec(t, tenant, r, parent).Ok?
    ensures Forest(SetParentSpec(t, tenant, r, parent).value) && UidsUnique(SetParentSpec(t, tenant, r, parent).value)
  {
    var t' := SetParentSpec(t, tenant, r, parent).value;
    if parent.Some? {
      SetParentExact(t, tenant, r, parent.value);
    } else {
      FewerEdges(t, t');
    }
  }

  /** A table with some edges removed is acyclic if the original is. */
  lemma FewerEdges(t: Table, t': Table)
    requires Acyclic(t) && forall r :: Parent(t', r).Some? ==> Parent(t', r) == Parent(t, r)
    ensures Acyclic(t')
  {
    forall r, n: nat | n > 0 ensures Up(t', r, n) != Some(r) {
      WalkInBoth(t, t', r, n);
    }
  }

  lemma {:induction false} WalkInBoth(t: Table, t': Table, r: Id, n: nat)
    requires forall r :: Parent(t', r).Some? ==> Parent(t', r) == Parent(t, r)
    ensures Up(t', r, n).Some? ==> Up(t', r, n) == Up(t, r, n)
    decreases n
  {
    if n > 0 && Parent(t', r).Some? {
      WalkInBoth(t, t', Parent(t', r).value, n - 1);
    }
  }

  lemma DeleteKeeps(t: Table, tenant: string, r: Id)
    requires Forest(t) && UidsUnique(t)
    ensures Forest(DeleteSpec(t, tenant, r)) && UidsUnique(DeleteSpec(t, tenant, r))
    ensures InTenant(t, tenant, r) ==> forall q :: q in t && t[q].parent == Some(r) && q != r ==>
              q in DeleteSpec(t, tenant, r) && DeleteSpec(t, tenant, r)[q].parent == None
  {
    FewerEdges(t, DeleteSpec(t, tenant, r));
  }

  lemma CreateKeeps(t: Table, tenant: string, name: string, parent: Option<Id>, id: Id)
    requires Forest(t) && UidsUnique(t) && id !in t && CreateSpec(t, tenant, name, parent, id).Ok?
    ensures Forest(CreateSpec(t, tenant, name, parent, id).value)
    ensures UidsUnique(CreateSpec(t, tenant, name, parent, id).value)
  {
    var t' := CreateSpec(t, tenant, name, parent, id).value;
    forall r, n: nat | n > 0 ensures Up(t', r, n) != Some(r) {
      if r == id {
        if parent.Some? {
          OldWalk(t, t', id, parent.value, n - 1);
        }
      } else if r in t {
        OldWalk(t, t', id, r, n);
      }
    }
  }

  /** Walks from an existing role never meet a role added later. */
  lemma {:induction false} OldWalk(t: Table, t': Table, id: Id, r: Id, n: nat)
    requires EdgesOk(t) && id !in t && r in t && id in t' && t' == t[id := t'[id]]
    ensures Up(t', r, n) == Up(t, r, n) && Up(t', r, n) != Some(id)
    decreases n
  {
    if n > 0 && t[r].parent.Some? {
      OldWalk(t, t', id, t[r].parent.value, n - 1);
    }
  }

  // ---------------------------------------------------------------- every run

  datatype Op =
    | Create(tenant: string, name: string, parent: Option<Id>, id: Id)
    | SetParent(tenant: string, role: Id, parent: Option<Id>)
    | Delete(tenant: string, role: Id)

  /** One request; a refused one changes nothing, and an id already used is refused by the key. */
  ghost function Apply(t: Table, op: Op): (t': Table)
    requires Forest(t) && UidsUnique(t)
    ensures Forest(t') && UidsUnique(t')
  {
    match op
    case Create(tenant, name, parent, id) =>
      if id in t || CreateSpec(t, tenant, name, parent, id).Err? then t
      else CreateKeeps(t, tenant, name, parent, id); CreateSpec(t, tenant, name, parent, id).value
    case SetParent(tenant, r, parent) =>
      if SetParentSpec(t, tenant, r, parent).Err? then t
      else SetParentKeeps(t, tenant, r, parent); SetParentSpec(t, tenant, r, parent).value
    case Delete(tenant, r) => DeleteKeeps(t, tenant, r); DeleteSpec(t, tenant, r)
  }

  ghost function Run(ops: seq<Op>): (t: Table)
    ensures Forest(t) && UidsUnique(t)
  {
    if ops == [] then  map[] else Apply(Run(ops[..|ops| - 1]), ops[|ops| - 1])
  }

  /** In every reachable table every role has a finite, repeat-free chain of ancestors, all of its
      own tenant and ending at a root. */
  lemma ReachableForest(ops: seq<Op>, t: Table, r: Id)
    requires t == Run(ops) && r in t
    ensures Distinct([r] + Chain(t, r))
    ensures forall i :: 0 <= i < |Chain(t, r)| ==> InTenant(t, t[r].tenant, Chain(t, r)[i])
    ensures Parent(t, ([r] + Chain(t, r))[|Chain(t, r)|]) == None
  {
    ChainFacts(t, r);
  }

  // ---------------------------------------------------------------- the repository

  function Reverse<T>(s: seq<T>): seq<T> { if s == [] then [] else Reverse(s[1..]) + [s[0]] }

  class RolesRepo {
    var roles: Table

    constructor ()
      ensures roles == map[] && Valid()
    {
      roles := map[];
    }

    ghost predicate Valid()
      reads this
    {
      Forest(roles) && UidsUnique(roles)
    }

    /** The recursive query of the cycle check: the walk from `parent` finds `child`. */
    method WalkFinds(tenant: string, parent: Id, child: Id) returns (found: bool)
      requires Valid() && InTenant(roles, tenant, parent)
      ensures found <==> child == parent || child in Chain(roles, parent)
    {
      var cur := parent;
      found := cur == child;
      while !found && roles[cur].parent.Some? && InTenant(roles, tenant, roles[cur].parent.value)
        invariant InTenant(roles, tenant, cur)
        invariant (child == parent || child in Chain(roles, parent))
                  <==> (found || child in Chain(roles, cur))
        decreases Ancestors(roles, cur), !found
      {
        ParentStep(roles, cur);
        assert Chain(roles, cur) == [roles[cur].parent.value] + Chain(roles, roles[cur].parent.value);
        cur := roles[cur].parent.value;
        found := cur == child;
      }
      assert roles[cur].parent.Some? ==> InTenant(roles, tenant, roles[cur].parent.value);
    }

    method ValidateParent(tenant: string, parent: Id, child: Option<Id>) returns (e: Option<RoleError>)
      requires Valid()
      ensures e == CheckParent(roles, tenant, parent, child)
    {
      if !InTenant(roles, tenant, parent) { return Some(ParentNotFound); }
      if child.Some? {
        if parent == child.value { return Some(OwnParent); }
        var cycle := WalkFinds(tenant, parent, child.value);
        if cycle { return Some(WouldCycle); }
      }
      e := None;
    }

    method Create(tenant: string, name: string, parent: Option<Id>, id: Id)
      returns (e: Option<RoleError>)
      requires Valid() && id !in roles
      modifies this
      ensures Valid()
      ensures match CreateSpec(old(roles), tenant, name, parent, id)
              case Err(err) => e == Some(err) && roles == old(roles)
              case Ok(t) => e == None && roles == t
    {
      var trimmed := Rsql.Trim(name);
      if trimmed == "" { return Some(NameRequired); }
      var uid := MakeUid(trimmed);
      if exists r :: r in roles && roles[r].tenant == tenant && roles[r].uid == uid { return Some(UidTaken); }
      if parent.Some? {
        var bad := ValidateParent(tenant, parent.value, None);
        if bad.Some? { return bad; }
      }
      CreateKeeps(roles, tenant, name, parent, id);
      roles := roles[id := Role(tenant, trimmed, uid, parent)];
      e := None;
    }

    method SetParent(tenant: string, role: Id, parent: Option<Id>) returns (e: Option<RoleError>)
      requires Valid()
      modifies this
      ensures Valid()
      ensures match SetParentSpec(old(roles), tenant, role, parent)
              case Err(err) => e == Some(err) && roles == old(roles)
              case Ok(t) => e == None && roles == t
    {
      if !InTenant(roles, tenant, role) { return Some(RoleNotFound); }
      if parent.Some? {
        var bad := ValidateParent(tenant, parent.value, Some(role));
        if bad.Some? { return bad; }
      }
      SetParentKeeps(roles, tenant, role, parent);
      roles := roles[role := roles[role].(parent := parent)];
      e := None;
    }

    method Delete(tenant: string, role: Id) returns (deleted: bool)
      requires Valid()
      modifies this
      ensures Valid()
      ensures roles == DeleteSpec(old(roles), tenant, role)
      ensures deleted <==> InTenant(old(roles), tenant, role)
    {
      hide Acyclic, EdgesOk, UidsUnique;
      DeleteKeeps(roles, tenant, role);
      deleted := InTenant(roles, tenant, role);
      if deleted {
        roles := map q | q in roles && q != role ::
          if roles[q].parent == Some(role) then roles[q].(parent := None) else roles[q];
      }
    }

    /** `get_role_ancestors`: the chain of ancestors, root first. */
    method GetRoleAncestors(tenant: string, role: Id) returns (chain: seq<Id>)
      requires Valid()
      ensures chain == if InTenant(roles, tenant, role) then Reverse(Chain(roles, role)) else []
    {
      chain := [];
      if !InTenant(roles, tenant, role) { return; }
      var cur := role;
      while roles[cur].parent.Some? && InTenant(roles, tenant, roles[cur].parent.value)
        invariant InTenant(roles, tenant, cur)
        invariant Reverse(Chain(roles, cur)) + chain == Reverse(Chain(roles, role))
        decreases Ancestors(roles, cur)
      {
        ParentStep(roles, cur);
        var p := roles[cur].parent.value;
        assert Chain(roles, cur) == [p] + Chain(roles, p);
        ConsParts(p, Chain(roles, p));
        Assoc(Reverse(Chain(roles, p)), [p], chain);
        chain := [p] + chain;
        cur := p;
      }
      assert Chain(roles, cur) == [];
      assert Reverse(Chain(roles, cur)) + chain == chain;
    }
  }
}
